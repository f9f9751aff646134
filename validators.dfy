/**
 * The link allow-list validator `YoutubeOnly` of edu/validators.py.
 *
 * The validator is configured with a list of field names. Called on the
 * submitted data (a mapping kept in insertion order, modelled as a sequence of
 * key/value pairs), it splits every designated value on the case-insensitive
 * marker `http://` / `https://` (the regular expression
 * `[hH][tT][tT][pP][sS]?://`), takes the host token that follows each marker
 * and rejects the data at the first host that is not exactly one of the
 * allowed domains.
 */
module Validators {
  import opened Wrappers

  /** The allowed hosts, compared exactly and case-sensitively. */
  const ALLOW_DOMAINS: seq<string> := ["youtube.com", "youtube.ru", "googlevideo.com", "ytimg.com", "youtu.be"]

  // ---------------------------------------------------------------------------
  // The marker `[hH][tT][tT][pP][sS]?://`
  // ---------------------------------------------------------------------------

  /** ASCII lower case: exactly the folding the character classes `[hH]` etc. perform. */
  function LowerAscii(c: char): char
  {
    if 'A' <= c <= 'Z' then (c as int + 32) as char else c
  }

  function Lower(s: string): (r: string)
    ensures |r| == |s|
    ensures forall k :: 0 <= k < |s| ==> r[k] == LowerAscii(s[k])
  {
    seq(|s|, k requires 0 <= k < |s| => LowerAscii(s[k]))
  }

  /** `c` matches the character class `[lower upper]`. */
  predicate Either(c: char, lower: char, upper: char)
  {
    c == lower || c == upper
  }

  /**
   * The length of the marker that the regular expression matches at `s[i..]`,
   * or 0 when it matches nothing there. The optional `s` is greedy: `https://`
   * is tried before `http://`.
   */
  function MarkerLength(s: string, i: nat): (n: nat)
    ensures n == 0 || n == 7 || n == 8
    ensures n > 0 ==> i + n <= |s|
  {
    if i + 7 <= |s| && Either(s[i], 'h', 'H') && Either(s[i + 1], 't', 'T')
       && Either(s[i + 2], 't', 'T') && Either(s[i + 3], 'p', 'P')
    then
      if i + 8 <= |s| && Either(s[i + 4], 's', 'S') && s[i + 5] == ':' && s[i + 6] == '/' && s[i + 7] == '/' then 8
      else if s[i + 4] == ':' && s[i + 5] == '/' && s[i + 6] == '/' then 7
      else 0
    else 0
  }

  /** No marker starts anywhere in `s`. */
  predicate NoMarker(s: string)
  {
    forall j :: 0 <= j < |s| ==> MarkerLength(s, j) == 0
  }

  /** The leftmost position at or after `i` where a marker starts. */
  function FindMarker(s: string, i: nat): (r: Option<nat>)
    requires i <= |s|
    ensures r.Some? ==> i <= r.value < |s| && MarkerLength(s, r.value) > 0
    ensures forall j :: i <= j < (if r.Some? then r.value else |s|) ==> MarkerLength(s, j) == 0
    decreases |s| - i
  {
    if i == |s| then None
    else if MarkerLength(s, i) > 0 then Some(i)
    else FindMarker(s, i + 1)
  }

  // ---------------------------------------------------------------------------
  // Splitting and host extraction (edu/validators.py:27-29)
  // ---------------------------------------------------------------------------

  /**
   * The pieces of `s[start..]` that `re.split(pattern, ...)` returns: the text
   * before the first marker, then the text after each marker up to the next
   * one. Matches are leftmost and do not overlap: the search resumes where the
   * previous marker ended.
   */
  function SplitFrom(s: string, start: nat): (pieces: seq<string>)
    requires start <= |s|
    ensures |pieces| >= 1
    decreases |s| - start
  {
    match FindMarker(s, start)
    case None => [s[start..]]
    case Some(i) => [s[start..i]] + SplitFrom(s, i + MarkerLength(s, i))
  }

  /** `re.split(pattern, s)`. */
  function Split(s: string): seq<string>
  {
    SplitFrom(s, 0)
  }

  /** The position of the first `c` at or after `from`, or `|s|` when there is none. */
  function IndexOf(s: string, c: char, from: nat): (k: nat)
    requires from <= |s|
    ensures from <= k <= |s| && (k < |s| ==> s[k] == c)
    ensures forall j :: from <= j < k ==> s[j] != c
    decreases |s| - from
  {
    if from == |s| then from
    else if s[from] == c then from
    else IndexOf(s, c, from + 1)
  }

  /** `s.split(c)[0]`: the text before the first `c`, or all of `s`. */
  function Before(s: string, c: char): (r: string)
    ensures r <= s && c !in r
    ensures |r| < |s| ==> s[|r|] == c
  {
    s[..IndexOf(s, c, 0)]
  }

  /** The host token of a piece: `word.split(" ")[0].split("/")[0]`. */
  function Host(word: string): (r: string)
    ensures r <= word && ' ' !in r && '/' !in r
  {
    Before(Before(word, ' '), '/')
  }

  /** The host tokens of a value, one per marker, left to right (`domains[1:]`). */
  function Hosts(value: string): (r: seq<string>)
    ensures |r| == |Split(value)| - 1
  {
    var pieces := Split(value);
    seq(|pieces| - 1, k requires 0 <= k < |pieces| - 1 => Host(pieces[k + 1]))
  }

  /** Every host token of `value` is exactly an allowed domain. */
  predicate Passes(value: string)
  {
    forall k :: 0 <= k < |Hosts(value)| ==> Hosts(value)[k] in ALLOW_DOMAINS
  }

  /** The index of the first host that is not an allowed domain. */
  function FirstDisallowed(hosts: seq<string>, from: nat): (r: Option<nat>)
    requires from <= |hosts|
    ensures r.None? <==> forall k :: from <= k < |hosts| ==> hosts[k] in ALLOW_DOMAINS
    ensures r.Some? ==> from <= r.value < |hosts| && hosts[r.value] !in ALLOW_DOMAINS
                        && forall k :: from <= k < r.value ==> hosts[k] in ALLOW_DOMAINS
    decreases |hosts| - from
  {
    if from == |hosts| then None
    else if hosts[from] !in ALLOW_DOMAINS then Some(from)
    else FirstDisallowed(hosts, from + 1)
  }

  /** What checking one designated value finds: the first disallowed host, if any. */
  function CheckValue(value: string): (r: Option<string>)
    ensures r.None? <==> Passes(value)
    ensures r.Some? ==> exists k :: 0 <= k < |Hosts(value)| && Hosts(value)[k] == r.value && r.value !in ALLOW_DOMAINS
                                    && forall j :: 0 <= j < k ==> Hosts(value)[j] in ALLOW_DOMAINS
  {
    match FirstDisallowed(Hosts(value), 0)
    case None => None
    case Some(k) => Some(Hosts(value)[k])
  }

  // ---------------------------------------------------------------------------
  // The validator (edu/validators.py:13-31)
  // ---------------------------------------------------------------------------

  /**
   * A configured validator. `__init__` copies the field list; with value
   * semantics the copy is this datatype value itself, and nothing a caller
   * does to its own list afterwards can reach it.
   */
  datatype YoutubeOnly = YoutubeOnly(fields: seq<string>)

  /** `Ok`, or the `ValidationError` naming the field key and the offending host. */
  datatype Verdict = Ok | Invalid(key: string, host: string)

  /**
   * `YoutubeOnly.__call__(data)`: keys in data order, occurrences left to
   * right, stopping at the first failure. The data is a value and is not
   * changed.
   */
  function Validate(v: YoutubeOnly, data: seq<(string, string)>): (r: Verdict)
    ensures r.Invalid? ==> r.key in v.fields && r.host !in ALLOW_DOMAINS
  {
    if data == [] then Ok
    else if data[0].0 !in v.fields then Validate(v, data[1..])
    else match CheckValue(data[0].1)
      case Some(h) => Invalid(data[0].0, h)
      case None => Validate(v, data[1..])
  }

  // ---------------------------------------------------------------------------
  // Properties of the marker
  // ---------------------------------------------------------------------------

  lemma LowerAsciiLetter(c: char, lower: char)
    requires 'a' <= lower <= 'z'
    ensures LowerAscii(c) == lower <==> c == lower || c == (lower as int - 32) as char
  {
  }

  lemma LowerAsciiOther(c: char, d: char)
    requires d == ':' || d == '/'
    ensures LowerAscii(c) == d <==> c == d
  {
  }

  lemma LowerIsHttps(u: string)
    requires |u| == 8
    ensures Lower(u) == "https://" <==>
      LowerAscii(u[0]) == 'h' && LowerAscii(u[1]) == 't' && LowerAscii(u[2]) == 't' && LowerAscii(u[3]) == 'p'
      && LowerAscii(u[4]) == 's' && LowerAscii(u[5]) == ':' && LowerAscii(u[6]) == '/' && LowerAscii(u[7]) == '/'
  {
    assert Lower(u) == [LowerAscii(u[0]), LowerAscii(u[1]), LowerAscii(u[2]), LowerAscii(u[3]),
                        LowerAscii(u[4]), LowerAscii(u[5]), LowerAscii(u[6]), LowerAscii(u[7])];
  }

  lemma LowerIsHttp(u: string)
    requires |u| == 7
    ensures Lower(u) == "http://" <==>
      LowerAscii(u[0]) == 'h' && LowerAscii(u[1]) == 't' && LowerAscii(u[2]) == 't' && LowerAscii(u[3]) == 'p'
      && LowerAscii(u[4]) == ':' && LowerAscii(u[5]) == '/' && LowerAscii(u[6]) == '/'
  {
    assert Lower(u) == [LowerAscii(u[0]), LowerAscii(u[1]), LowerAscii(u[2]), LowerAscii(u[3]),
                        LowerAscii(u[4]), LowerAscii(u[5]), LowerAscii(u[6])];
  }

  /**
   * The character classes of the pattern amount to a case-insensitive
   * comparison with `https://` or `http://`, the longer one winning.
   */
  lemma MarkerIsCaseInsensitiveScheme(s: string, i: nat)
    ensures MarkerLength(s, i) == 8 <==> i + 8 <= |s| && Lower(s[i..i + 8]) == "https://"
    ensures MarkerLength(s, i) == 7 <==> i + 7 <= |s| && Lower(s[i..i + 7]) == "http://"
  {
    if i + 7 <= |s| {
      LowerAsciiLetter(s[i], 'h');
      LowerAsciiLetter(s[i + 1], 't');
      LowerAsciiLetter(s[i + 2], 't');
      LowerAsciiLetter(s[i + 3], 'p');
      LowerAsciiLetter(s[i + 4], 's');
      LowerAsciiOther(s[i + 4], ':');
      LowerAsciiOther(s[i + 5], ':');
      LowerAsciiOther(s[i + 5], '/');
      LowerAsciiOther(s[i + 6], '/');
      var w := s[i..i + 7];
      assert w[0] == s[i] && w[1] == s[i + 1] && w[2] == s[i + 2] && w[3] == s[i + 3]
             && w[4] == s[i + 4] && w[5] == s[i + 5] && w[6] == s[i + 6];
      LowerIsHttp(w);
      assert s[i + 4..i + 7] == [s[i + 4], s[i + 5], s[i + 6]];
      if i + 8 <= |s| {
        LowerAsciiOther(s[i + 7], '/');
        var u := s[i..i + 8];
        assert u[0] == s[i] && u[1] == s[i + 1] && u[2] == s[i + 2] && u[3] == s[i + 3]
               && u[4] == s[i + 4] && u[5] == s[i + 5] && u[6] == s[i + 6] && u[7] == s[i + 7];
        LowerIsHttps(u);
        assert s[i + 5..i + 8] == [s[i + 5], s[i + 6], s[i + 7]];
      }
    }
  }

  /** Whether a marker starts at `j` depends only on the text from `j` on. */
  lemma MarkerLengthOfSuffix(s: string, k: nat, j: nat)
    requires k <= j <= |s|
    ensures MarkerLength(s, j) == MarkerLength(s[k..], j - k)
  {
    var t := s[k..];
    var q := j - k;
    if j + 7 <= |s| {
      assert t[q] == s[j] && t[q + 1] == s[j + 1] && t[q + 2] == s[j + 2] && t[q + 3] == s[j + 3];
      assert t[q + 4] == s[j + 4];
      assert t[q + 4..q + 7] == s[j + 4..j + 7];
      if j + 8 <= |s| {
        assert t[q + 5..q + 8] == s[j + 5..j + 8];
      }
    }
  }

  /** A marker found in a slice of `s` is a marker of `s` at the same place. */
  lemma MarkerInSlice(s: string, a: nat, b: nat, j: nat)
    requires a <= b <= |s| && j < b - a
    ensures MarkerLength(s[a..b], j) > 0 ==> MarkerLength(s, a + j) > 0
  {
    var t := s[a..b];
    if j + 7 <= |t| {
      assert t[j] == s[a + j] && t[j + 1] == s[a + j + 1] && t[j + 2] == s[a + j + 2] && t[j + 3] == s[a + j + 3];
      assert t[j + 4] == s[a + j + 4] && t[j + 5] == s[a + j + 5] && t[j + 6] == s[a + j + 6];
      assert t[j + 4..j + 7] == [t[j + 4], t[j + 5], t[j + 6]];
      assert s[a + j + 4..a + j + 7] == [s[a + j + 4], s[a + j + 5], s[a + j + 6]];
      if j + 8 <= |t| {
        assert t[j + 7] == s[a + j + 7];
        assert t[j + 5..j + 8] == [t[j + 5], t[j + 6], t[j + 7]];
        assert s[a + j + 5..a + j + 8] == [s[a + j + 5], s[a + j + 6], s[a + j + 7]];
      }
    }
  }

  // ---------------------------------------------------------------------------
  // Properties of splitting and of the host token
  // ---------------------------------------------------------------------------

  /** Every piece that splitting returns is free of markers. */
  lemma {:induction false} SplitPiecesHaveNoMarker(s: string, start: nat)
    requires start <= |s|
    ensures forall k :: 0 <= k < |SplitFrom(s, start)| ==> NoMarker(SplitFrom(s, start)[k])
    decreases |s| - start
  {
    match FindMarker(s, start)
    case None =>
      forall j | 0 <= j < |s| - start
        ensures MarkerLength(s[start..], j) == 0
      {
        assert s[start..] == s[start..|s|];
        MarkerInSlice(s, start, |s|, j);
      }
    case Some(i) =>
      SplitPiecesHaveNoMarker(s, i + MarkerLength(s, i));
      forall j | 0 <= j < i - start
        ensures MarkerLength(s[start..i], j) == 0
      {
        MarkerInSlice(s, start, i, j);
      }
  }

  /** A text the marker pattern matches as a whole. */
  predicate IsScheme(m: string)
  {
    |m| > 0 && MarkerLength(m, 0) == |m|
  }

  /** The texts the pattern matches as a whole are `http://` and `https://` in any mix of cases. */
  lemma IsSchemeIff(m: string)
    ensures IsScheme(m) <==> Lower(m) == "https://" || Lower(m) == "http://"
  {
    MarkerIsCaseInsensitiveScheme(m, 0);
    assert m[0..|m|] == m;
  }

  /** The marker texts that splitting `s[start..]` consumes, left to right. */
  function MarkersFrom(s: string, start: nat): seq<string>
    requires start <= |s|
    decreases |s| - start
  {
    match FindMarker(s, start)
    case None => []
    case Some(i) => [s[i..i + MarkerLength(s, i)]] + MarkersFrom(s, i + MarkerLength(s, i))
  }

  /** The pieces with the marker texts put back between them. */
  function Join(pieces: seq<string>, markers: seq<string>): string
    requires |pieces| == |markers| + 1
    decreases |markers|
  {
    if markers == [] then pieces[0] else pieces[0] + markers[0] + Join(pieces[1..], markers[1..])
  }

  /**
   * Splitting loses nothing: there is one marker text between consecutive
   * pieces, each matched in full, and putting them back gives the text.
   */
  lemma {:induction false} SplitRoundTrip(s: string, start: nat)
    requires start <= |s|
    ensures |SplitFrom(s, start)| == |MarkersFrom(s, start)| + 1
    ensures forall k :: 0 <= k < |MarkersFrom(s, start)| ==> IsScheme(MarkersFrom(s, start)[k])
    ensures Join(SplitFrom(s, start), MarkersFrom(s, start)) == s[start..]
    decreases |s| - start
  {
    SplitCount(s, start);
    MarkersAreSchemes(s, start);
    JoinOfSplit(s, start);
  }

  /** One piece more than markers. */
  lemma {:induction false} SplitCount(s: string, start: nat)
    requires start <= |s|
    ensures |SplitFrom(s, start)| == |MarkersFrom(s, start)| + 1
    decreases |s| - start
  {
    var f := FindMarker(s, start);
    if f.Some? {
      var i := f.value;
      SplitCount(s, i + MarkerLength(s, i));
      SplitFromAt(s, start, i);
      MarkersFromAt(s, start, i);
    }
  }

  /** Every consumed marker text is a scheme. */
  lemma {:induction false} MarkersAreSchemes(s: string, start: nat)
    requires start <= |s|
    ensures forall k :: 0 <= k < |MarkersFrom(s, start)| ==> IsScheme(MarkersFrom(s, start)[k])
    decreases |s| - start
  {
    var f := FindMarker(s, start);
    if f.Some? {
      var i := f.value;
      MarkersAreSchemes(s, i + MarkerLength(s, i));
      MarkerTextIsScheme(s, i);
      MarkersFromAt(s, start, i);
    }
  }

  /** Putting the marker texts back between the pieces gives the text. */
  lemma {:induction false} JoinOfSplit(s: string, start: nat)
    requires start <= |s|
    requires |SplitFrom(s, start)| == |MarkersFrom(s, start)| + 1
    ensures Join(SplitFrom(s, start), MarkersFrom(s, start)) == s[start..]
    decreases |s| - start
  {
    var f := FindMarker(s, start);
    if f.Some? {
      var i := f.value;
      var j := i + MarkerLength(s, i);
      var p, m, pieces, markers := s[start..i], s[i..j], SplitFrom(s, j), MarkersFrom(s, j);
      SplitCount(s, j);
      calc {
        Join(SplitFrom(s, start), MarkersFrom(s, start));
        { SplitFromAt(s, start, i); MarkersFromAt(s, start, i); }
        Join([p] + pieces, [m] + markers);
        { JoinCons(p, m, pieces, markers); }
        p + m + Join(pieces, markers);
        { JoinOfSplit(s, j); }
        p + m + s[j..];
        { SlicesConcat(s, start, i, j); }
        s[start..];
      }
    }
  }

  /** One step of collecting marker texts, at the leftmost marker `i`. */
  lemma MarkersFromAt(s: string, start: nat, i: nat)
    requires start <= |s| && FindMarker(s, start) == Some(i)
    ensures MarkersFrom(s, start) == [s[i..i + MarkerLength(s, i)]] + MarkersFrom(s, i + MarkerLength(s, i))
  {
  }

  /** Three adjacent slices make up the suffix they cover. */
  lemma SlicesConcat(s: string, a: nat, b: nat, c: nat)
    requires a <= b <= c <= |s|
    ensures s[a..b] + s[b..c] + s[c..] == s[a..]
  {
    assert s[a..] == s[a..b] + s[b..];
    assert s[b..] == s[b..c] + s[c..];
  }

  /** The text of a marker is a scheme. */
  lemma MarkerTextIsScheme(s: string, i: nat)
    requires MarkerLength(s, i) > 0
    ensures IsScheme(s[i..i + MarkerLength(s, i)])
  {
    var n := MarkerLength(s, i);
    MarkerLengthOfSuffix(s, i, i);
    MarkerFits(s[i..], n, 0);
    assert s[i..][..n] == s[i..i + n];
  }

  /** `Join` on a piece and a marker put in front. */
  lemma JoinCons(p: string, m: string, pieces: seq<string>, markers: seq<string>)
    requires |pieces| == |markers| + 1
    ensures Join([p] + pieces, [m] + markers) == p + m + Join(pieces, markers)
  {
    assert ([p] + pieces)[1..] == pieces && ([m] + markers)[1..] == markers;
  }

  /** A marker of `s` that ends by `b` is the same marker of `s[..b]`. */
  lemma MarkerFits(s: string, b: nat, j: nat)
    requires j < b <= |s| && MarkerLength(s, j) > 0 && j + MarkerLength(s, j) <= b
    ensures MarkerLength(s[..b], j) == MarkerLength(s, j)
  {
    var t := s[..b];
    assert t[j] == s[j] && t[j + 1] == s[j + 1] && t[j + 2] == s[j + 2] && t[j + 3] == s[j + 3] && t[j + 4] == s[j + 4];
    assert t[j + 4..j + 7] == s[j + 4..j + 7];
    if j + 8 <= b {
      assert t[j + 5..j + 8] == s[j + 5..j + 8];
    }
  }

  /** A marker of `s[..b]` is the same marker of `s`. */
  lemma MarkerExtends(s: string, b: nat, j: nat)
    requires j < b <= |s| && MarkerLength(s[..b], j) > 0
    ensures MarkerLength(s, j) == MarkerLength(s[..b], j)
  {
    var t := s[..b];
    assert t[j] == s[j] && t[j + 1] == s[j + 1] && t[j + 2] == s[j + 2] && t[j + 3] == s[j + 3] && t[j + 4] == s[j + 4];
    assert t[j + 4..j + 7] == s[j + 4..j + 7];
    if j + 8 <= b {
      assert t[j + 5..j + 8] == s[j + 5..j + 8];
    } else if j + 8 <= |s| {
      assert t[j + 4..j + 7] == "://";
      assert t[j + 4] == t[j + 4..j + 7][0];
    }
  }

  /** No character inside a marker after its first one is an `h` or `H`. */
  lemma MarkerTail(s: string, j: nat, a: nat)
    requires j < a < j + MarkerLength(s, j)
    ensures s[a] != 'h' && s[a] != 'H'
  {
    if MarkerLength(s, j) == 8 {
      assert s[j + 5..j + 8] == "://";
      assert s[j + 5] == s[j + 5..j + 8][0] && s[j + 6] == s[j + 5..j + 8][1] && s[j + 7] == s[j + 5..j + 8][2];
    } else {
      assert s[j + 4..j + 7] == "://";
      assert s[j + 4] == s[j + 4..j + 7][0] && s[j + 5] == s[j + 4..j + 7][1] && s[j + 6] == s[j + 4..j + 7][2];
    }
  }

  /** Whether a marker starts at `a + j` is the same in `s` and in `s[a..b]`, when it ends by `b`. */
  lemma MarkerInSliceExact(s: string, a: nat, b: nat, j: nat)
    requires a <= b <= |s| && j < b - a
    ensures MarkerLength(s[a..b], j) > 0 ==> MarkerLength(s, a + j) == MarkerLength(s[a..b], j)
    ensures MarkerLength(s, a + j) > 0 && a + j + MarkerLength(s, a + j) <= b ==> MarkerLength(s[a..b], j) == MarkerLength(s, a + j)
  {
    MarkerLengthOfSuffix(s, a, a + j);
    assert s[a..b] == s[a..][..b - a];
    if MarkerLength(s[a..b], j) > 0 {
      MarkerExtends(s[a..], b - a, j);
    }
    if MarkerLength(s, a + j) > 0 && a + j + MarkerLength(s, a + j) <= b {
      MarkerFits(s[a..], b - a, j);
    }
  }

  /**
   * A marker-free text `p` at `start`, followed by a scheme `m`: the leftmost
   * marker from `start` on is `m`, matched in full.
   */
  lemma LinkAt(s: string, start: nat, p: string, m: string)
    requires NoMarker(p) && IsScheme(m)
    requires start + |p| + |m| <= |s| && s[start..start + |p|] == p && s[start + |p|..start + |p| + |m|] == m
    ensures FindMarker(s, start) == Some(start + |p|)
    ensures MarkerLength(s, start + |p|) == |m|
  {
    var c := start + |p|;
    MarkerInSliceExact(s, c, c + |m|, 0);
    assert s[c] == m[0] && (s[c] == 'h' || s[c] == 'H');
    forall j | start <= j < c
      ensures MarkerLength(s, j) == 0
    {
      if MarkerLength(s, j) > 0 {
        if j + MarkerLength(s, j) <= c {
          MarkerInSliceExact(s, start, c, j - start);
        } else {
          MarkerTail(s, j, c);
        }
      }
    }
  }

  /**
   * Joining marker-free pieces with schemes and splitting again gives back
   * the pieces: together with `SplitRoundTrip`, splitting and joining undo
   * each other.
   */
  lemma {:induction false} SplitOfJoinFrom(s: string, start: nat, pieces: seq<string>, markers: seq<string>)
    requires start <= |s| && |pieces| == |markers| + 1
    requires Links(s, start, pieces, markers)
    ensures SplitFrom(s, start) == pieces
    decreases |markers|
  {
    if markers != [] {
      var c := start + |pieces[0]|;
      var next := c + |markers[0]|;
      SplitOfJoinFrom(s, next, pieces[1..], markers[1..]);
      SplitStep(s, start, c, next);
      assert pieces == [pieces[0]] + pieces[1..];
    }
  }

  /**
   * The matches from `start` on, read from the front: each piece runs up to
   * the leftmost marker, which has the length of the marker text, and after
   * the last piece there is none.
   */
  predicate Links(s: string, start: nat, pieces: seq<string>, markers: seq<string>)
    requires start <= |s| && |pieces| == |markers| + 1
    decreases |markers|
  {
    if markers == [] then FindMarker(s, start) == None && s[start..] == pieces[0]
    else
      var c := start + |pieces[0]|;
      && c + |markers[0]| <= |s|
      && FindMarker(s, start) == Some(c) && MarkerLength(s, c) == |markers[0]|
      && s[start..c] == pieces[0]
      && Links(s, c + |markers[0]|, pieces[1..], markers[1..])
  }

  /** Marker-free pieces spelled out with schemes between them are matched exactly so. */
  lemma {:induction false} LinksOfJoined(s: string, start: nat, pieces: seq<string>, markers: seq<string>)
    requires start <= |s| && |pieces| == |markers| + 1
    requires AllNoMarker(pieces) && AllSchemes(markers)
    requires JoinedAt(s, start, pieces, markers)
    ensures Links(s, start, pieces, markers)
    decreases |markers|
  {
    if markers == [] {
      LastPiece(s, start, pieces[0]);
    } else {
      var c := start + |pieces[0]|;
      var next := c + |markers[0]|;
      LinkAt(s, start, pieces[0], markers[0]);
      LinksOfJoined(s, next, pieces[1..], markers[1..]);
    }
  }

  /** `s` from `start` on spells the pieces with the markers between them, read from the front. */
  predicate JoinedAt(s: string, start: nat, pieces: seq<string>, markers: seq<string>)
    requires start <= |s| && |pieces| == |markers| + 1
    decreases |markers|
  {
    if markers == [] then s[start..] == pieces[0]
    else
      var c := start + |pieces[0]|;
      && c + |markers[0]| <= |s|
      && s[start..c] == pieces[0] && s[c..c + |markers[0]|] == markers[0]
      && JoinedAt(s, c + |markers[0]|, pieces[1..], markers[1..])
  }

  /** A suffix equal to the joined pieces spells them from the front. */
  lemma {:induction false} JoinedAtOfJoin(s: string, start: nat, pieces: seq<string>, markers: seq<string>)
    requires start <= |s| && |pieces| == |markers| + 1
    requires s[start..] == Join(pieces, markers)
    ensures JoinedAt(s, start, pieces, markers)
    decreases |markers|
  {
    if markers != [] {
      var p, m, rest := pieces[0], markers[0], Join(pieces[1..], markers[1..]);
      assert s[start..] == p + m + rest;
      ConcatParts(p, m, rest);
      SliceOfSuffix(s, start, 0, |p|);
      SliceOfSuffix(s, start, |p|, |p| + |m|);
      SuffixOfSuffix(s, start, |p| + |m|);
      JoinedAtOfJoin(s, start + |p| + |m|, pieces[1..], markers[1..]);
    }
  }

  /** Every piece is free of markers, stated piece by piece from the front. */
  predicate AllNoMarker(pieces: seq<string>)
  {
    pieces == [] || (NoMarker(pieces[0]) && AllNoMarker(pieces[1..]))
  }

  /** Every marker text is a scheme, stated from the front. */
  predicate AllSchemes(markers: seq<string>)
  {
    markers == [] || (IsScheme(markers[0]) && AllSchemes(markers[1..]))
  }

  /** The front-to-back forms say the same as the quantified ones. */
  lemma {:induction false} AllFromEvery(pieces: seq<string>, markers: seq<string>)
    requires forall k :: 0 <= k < |pieces| ==> NoMarker(pieces[k])
    requires forall k :: 0 <= k < |markers| ==> IsScheme(markers[k])
    ensures AllNoMarker(pieces) && AllSchemes(markers)
    decreases |pieces| + |markers|
  {
    if pieces != [] || markers != [] {
      var ps := if pieces == [] then [] else pieces[1..];
      var ms := if markers == [] then [] else markers[1..];
      forall k | 0 <= k < |ps|
        ensures NoMarker(ps[k])
      {
        assert ps[k] == pieces[k + 1];
      }
      forall k | 0 <= k < |ms|
        ensures IsScheme(ms[k])
      {
        assert ms[k] == markers[k + 1];
      }
      AllFromEvery(ps, ms);
    }
  }

  /** No marker starts in a marker-free rest. */
  lemma LastPiece(s: string, start: nat, p: string)
    requires start <= |s| && s[start..] == p && NoMarker(p)
    ensures FindMarker(s, start) == None
  {
    forall j | start <= j < |s|
      ensures MarkerLength(s, j) == 0
    {
      MarkerInSliceExact(s, start, |s|, j - start);
      assert s[start..|s|] == s[start..];
    }
  }

  /** One step of splitting, at the leftmost marker `i`, resuming at `next`. */
  lemma SplitStep(s: string, start: nat, i: nat, next: nat)
    requires start <= |s| && FindMarker(s, start) == Some(i) && next == i + MarkerLength(s, i)
    ensures SplitFrom(s, start) == [s[start..i]] + SplitFrom(s, next)
  {
  }

  /** One step of splitting, at the leftmost marker `i`. */
  lemma SplitFromAt(s: string, start: nat, i: nat)
    requires start <= |s| && FindMarker(s, start) == Some(i)
    ensures SplitFrom(s, start) == [s[start..i]] + SplitFrom(s, i + MarkerLength(s, i))
  {
  }

  /** The three parts of `p + m + rest`, sliced back out. */
  lemma ConcatParts(p: string, m: string, rest: string)
    ensures (p + m + rest)[..|p|] == p && (p + m + rest)[|p|..|p| + |m|] == m && (p + m + rest)[|p| + |m|..] == rest
  {
    var t := p + m + rest;
    assert forall k :: 0 <= k < |p| ==> t[..|p|][k] == p[k];
    assert forall k :: 0 <= k < |m| ==> t[|p|..|p| + |m|][k] == m[k];
    assert forall k :: 0 <= k < |rest| ==> t[|p| + |m|..][k] == rest[k];
  }

  /** A slice of a suffix is a slice of the whole. */
  lemma SliceOfSuffix(s: string, a: nat, b: nat, c: nat)
    requires a <= |s| && b <= c <= |s| - a
    ensures s[a..][b..c] == s[a + b..a + c]
  {
    assert forall k :: 0 <= k < c - b ==> s[a..][b..c][k] == s[a + b..a + c][k];
  }

  /** A suffix of a suffix is a suffix of the whole. */
  lemma SuffixOfSuffix(s: string, a: nat, b: nat)
    requires a <= |s| && b <= |s| - a
    ensures s[a..][b..] == s[a + b..]
  {
    assert forall k :: 0 <= k < |s| - a - b ==> s[a..][b..][k] == s[a + b..][k];
  }

  /** A value built from marker-free pieces and schemes has one host token per scheme: that of the piece after it. */
  lemma SplitOfJoin(pieces: seq<string>, markers: seq<string>)
    requires |pieces| == |markers| + 1
    requires forall k :: 0 <= k < |pieces| ==> NoMarker(pieces[k])
    requires forall k :: 0 <= k < |markers| ==> IsScheme(markers[k])
    ensures Split(Join(pieces, markers)) == pieces
    ensures Hosts(Join(pieces, markers)) == seq(|markers|, k requires 0 <= k < |markers| => Host(pieces[k + 1]))
  {
    var s := Join(pieces, markers);
    assert s[0..] == s;
    AllFromEvery(pieces, markers);
    JoinedAtOfJoin(s, 0, pieces, markers);
    LinksOfJoined(s, 0, pieces, markers);
    SplitOfJoinFrom(s, 0, pieces, markers);
  }

  /** A value without any marker is one piece, and so has no host token. */
  lemma NoMarkerHasNoHost(value: string)
    requires NoMarker(value)
    ensures Split(value) == [value] && Hosts(value) == []
  {
    match FindMarker(value, 0)
    case None =>
    case Some(i) =>
  }

  /** A value containing no `http://` / `https://` marker, in any case, always passes. */
  lemma NoMarkerPasses(v: YoutubeOnly, key: string, value: string)
    requires NoMarker(value)
    ensures CheckValue(value) == None
    ensures Validate(v, [(key, value)]) == Ok
  {
    NoMarkerHasNoHost(value);
  }

  /** Without an `h` or `H` there can be no marker. */
  lemma NoMarkerWithoutH(s: string)
    requires 'h' !in s && 'H' !in s
    ensures NoMarker(s)
  {
    forall j | 0 <= j < |s|
      ensures MarkerLength(s, j) == 0
    {
      assert s[j] in s;
    }
  }

  /**
   * The host token is the longest prefix of the piece that contains neither a
   * space nor a slash: it stops exactly at the first of the two.
   */
  lemma HostIsPrefixBeforeSeparator(word: string)
    ensures Host(word) <= word
    ensures ' ' !in Host(word) && '/' !in Host(word)
    ensures |Host(word)| < |word| ==> word[|Host(word)|] == ' ' || word[|Host(word)|] == '/'
  {
    var a := Before(word, ' ');
    var h := Before(a, '/');
    if |h| < |a| {
      assert word[|h|] == a[|h|];
    }
  }

  /** Any prefix with those properties is the host token: the characterisation is exact. */
  lemma HostIsUnique(word: string, h: string)
    requires h <= word && ' ' !in h && '/' !in h
    requires |h| < |word| ==> word[|h|] == ' ' || word[|h|] == '/'
    ensures h == Host(word)
  {
    HostIsPrefixBeforeSeparator(word);
  }

  /** The host token of `h + rest` is `h` when `h` has no separator and `rest` starts with one. */
  lemma HostOfWord(h: string, rest: string)
    requires ' ' !in h && '/' !in h
    requires rest == [] || rest[0] == ' ' || rest[0] == '/'
    ensures Host(h + rest) == h
  {
    var word := h + rest;
    assert h <= word;
    HostIsUnique(word, h);
  }

  /**
   * A value made of one marker, written in any mix of cases, and a word free
   * of markers yields the single host token of that word.
   */
  lemma OneLinkHosts(m: string, word: string)
    requires Lower(m) == "https://" || Lower(m) == "http://"
    requires NoMarker(word)
    ensures Hosts(m + word) == [Host(word)]
    ensures CheckValue(m + word) == (if Host(word) in ALLOW_DOMAINS then None else Some(Host(word)))
  {
    var s := m + word;
    var n := |m|;
    assert s[0..n] == m;
    MarkerIsCaseInsensitiveScheme(s, 0);
    assert MarkerLength(s, 0) == n;
    assert FindMarker(s, 0) == Some(0);
    assert s[n..] == word;
    if FindMarker(s, n).Some? {
      var j := FindMarker(s, n).value;
      MarkerLengthOfSuffix(s, n, j);
    }
    assert FindMarker(s, n) == None;
    assert SplitFrom(s, n) == [word];
    assert SplitFrom(s, 0) == [s[0..0]] + SplitFrom(s, n);
    assert Split(s) == ["", word];
  }

  /** An empty host token, as in `https:// x` or `https:///`, is rejected. */
  lemma EmptyHostIsRejected(m: string, word: string)
    requires Lower(m) == "https://" || Lower(m) == "http://"
    requires NoMarker(word)
    requires word == [] || word[0] == ' ' || word[0] == '/'
    ensures CheckValue(m + word) == Some("")
  {
    OneLinkHosts(m, word);
    HostOfWord("", word);
    assert "" + word == word;
  }

  // ---------------------------------------------------------------------------
  // Properties of the validator
  // ---------------------------------------------------------------------------

  /**
   * The validator accepts the data if and only if every value under a
   * designated key passes; values under other keys play no part.
   */
  lemma {:induction false} ValidateOkIff(v: YoutubeOnly, data: seq<(string, string)>)
    ensures Validate(v, data) == Ok <==> forall i :: 0 <= i < |data| && data[i].0 in v.fields ==> Passes(data[i].1)
  {
    if data != [] {
      ValidateOkIff(v, data[1..]);
      assert forall i :: 1 <= i < |data| ==> data[i] == data[1..][i - 1];
    }
  }

  /**
   * The error names the first designated entry, in data order, whose value
   * fails, and the first disallowed host in that value, left to right.
   */
  lemma {:induction false} ValidateReportsFirstFailure(v: YoutubeOnly, data: seq<(string, string)>, i: nat)
    requires i < |data| && data[i].0 in v.fields && !Passes(data[i].1)
    requires forall j :: 0 <= j < i && data[j].0 in v.fields ==> Passes(data[j].1)
    ensures Validate(v, data) == Invalid(data[i].0, CheckValue(data[i].1).value)
    decreases i
  {
    if i > 0 {
      ValidateReportsFirstFailure(v, data[1..], i - 1);
      assert forall j :: 1 <= j < |data| ==> data[j] == data[1..][j - 1];
    }
  }

  /**
   * Entry `i` is designated and fails, and every designated entry before it
   * passes.
   */
  predicate FirstFailureAt(v: YoutubeOnly, data: seq<(string, string)>, i: nat)
  {
    && i < |data| && data[i].0 in v.fields && !Passes(data[i].1)
    && forall j :: 0 <= j < i && data[j].0 in v.fields ==> Passes(data[j].1)
  }

  /** Conversely, every `Invalid` verdict comes from such a first failing entry. */
  lemma {:induction false} InvalidComesFromFirstFailure(v: YoutubeOnly, data: seq<(string, string)>)
    requires Validate(v, data).Invalid?
    ensures exists i :: FirstFailureAt(v, data, i)
  {
    if data[0].0 in v.fields && !Passes(data[0].1) {
      assert FirstFailureAt(v, data, 0);
    } else {
      InvalidComesFromFirstFailure(v, data[1..]);
      var i: nat :| FirstFailureAt(v, data[1..], i);
      assert data[i + 1] == data[1..][i];
      forall j | 0 <= j < i + 1 && data[j].0 in v.fields
        ensures Passes(data[j].1)
      {
        if j > 0 { assert data[j] == data[1..][j - 1]; }
      }
      assert FirstFailureAt(v, data, i + 1);
    }
  }

  /**
   * A key that is not in the field list is never inspected: replacing its
   * value, whatever links the new value holds, leaves the verdict unchanged.
   */
  lemma {:induction false} UncheckedKeyIsIgnored(v: YoutubeOnly, data: seq<(string, string)>, i: nat, other: string)
    requires i < |data| && data[i].0 !in v.fields
    ensures Validate(v, data[i := (data[i].0, other)]) == Validate(v, data)
    decreases i
  {
    var data' := data[i := (data[i].0, other)];
    if i > 0 {
      UncheckedKeyIsIgnored(v, data[1..], i - 1, other);
      assert data'[1..] == data[1..][i - 1 := (data[i].0, other)];
    } else {
      assert data'[1..] == data[1..];
    }
  }

  // ---------------------------------------------------------------------------
  // Concrete cases
  //
  // The literal texts are parameters fixed by a precondition rather than
  // literals in the postcondition: on a literal argument the verifier unfolds
  // the splitting functions eagerly and runs out of resources.
  // ---------------------------------------------------------------------------

  /** An `h` that is not followed by a `t` starts no marker. */
  lemma NoMarkerAroundH(a: string, b: string)
    requires 'h' !in a && 'H' !in a && 'h' !in b && 'H' !in b
    requires b != [] && b[0] != 't' && b[0] != 'T'
    ensures NoMarker(a + "h" + b)
  {
    var s := a + "h" + b;
    forall j | 0 <= j < |s|
      ensures MarkerLength(s, j) == 0
    {
      if j < |a| {
        assert s[j] == a[j] && a[j] in a;
      } else if j == |a| {
        assert s[j + 1] == b[0];
      } else {
        assert s[j] == b[j - |a| - 1] && b[j - |a| - 1] in b;
      }
    }
  }

  /** Two links, each followed by marker-free text: one host token per link, in order. */
  lemma TwoLinkHosts(m1: string, w1: string, m2: string, w2: string)
    requires IsScheme(m1) && IsScheme(m2) && NoMarker(w1) && NoMarker(w2)
    ensures Hosts(m1 + w1 + m2 + w2) == [Host(w1), Host(w2)]
  {
    var pieces, markers := ["", w1, w2], [m1, m2];
    assert pieces[1..] == [w1, w2] && markers[1..] == [m2] && pieces[1..][1..] == [w2];
    assert Join([w2], []) == w2;
    assert Join([w1, w2], [m2]) == w1 + m2 + w2;
    assert Join(pieces, markers) == "" + m1 + (w1 + m2 + w2);
    assert "" + m1 + (w1 + m2 + w2) == m1 + w1 + m2 + w2;
    assert NoMarker(pieces[0]) && NoMarker(pieces[1]) && NoMarker(pieces[2]);
    SplitOfJoin(pieces, markers);
  }

  /**
   * A value with two links is checked link by link: the allowed first host
   * passes and the second one is reported.
   */
  lemma TwoLinkExample(m1: string, w1: string, m2: string, w2: string)
    requires m1 == "https://" && w1 == "youtube.com/watch?v=x " && m2 == "http://" && w2 == "evil.com/x"
    ensures Hosts(m1 + w1 + m2 + w2) == ["youtube.com", "evil.com"]
    ensures CheckValue(m1 + w1 + m2 + w2) == Some("evil.com")
  {
    TwoLinkExampleHosts(m1, w1, m2, w2);
    var hosts := Hosts(m1 + w1 + m2 + w2);
    assert hosts[0] in ALLOW_DOMAINS && hosts[1] !in ALLOW_DOMAINS;
    assert FirstDisallowed(hosts, 0) == Some(1);
  }

  /** The host tokens of the two-link value. */
  lemma TwoLinkExampleHosts(m1: string, w1: string, m2: string, w2: string)
    requires m1 == "https://" && w1 == "youtube.com/watch?v=x " && m2 == "http://" && w2 == "evil.com/x"
    ensures Hosts(m1 + w1 + m2 + w2) == ["youtube.com", "evil.com"]
  {
    TwoLinkExampleParts(m1, w1, m2, w2);
    TwoLinkExampleTokens(w1, w2);
    TwoLinkHosts(m1, w1, m2, w2);
  }

  /** The two-link value is made of two schemes, each followed by a marker-free word. */
  lemma TwoLinkExampleParts(m1: string, w1: string, m2: string, w2: string)
    requires m1 == "https://" && w1 == "youtube.com/watch?v=x " && m2 == "http://" && w2 == "evil.com/x"
    ensures IsScheme(m1) && IsScheme(m2) && NoMarker(w1) && NoMarker(w2)
  {
    NoMarkerAroundH("youtube.com/watc", "?v=x ");
    assert "youtube.com/watc" + "h" + "?v=x " == w1;
    NoMarkerWithoutH(w2);
  }

  /** The host tokens of the two words of the two-link value. */
  lemma TwoLinkExampleTokens(w1: string, w2: string)
    requires w1 == "youtube.com/watch?v=x " && w2 == "evil.com/x"
    ensures Host(w1) == "youtube.com" && Host(w2) == "evil.com"
  {
    HostOfWord("youtube.com", "/watch?v=x ");
    assert "youtube.com" + "/watch?v=x " == w1;
    HostOfWord("evil.com", "/x");
    assert "evil.com" + "/x" == w2;
  }

  /** Scheme matching is case-insensitive: `HTTPS://youtube.com/x` passes. */
  lemma UpperCaseSchemePasses(m: string, word: string)
    requires m == "HTTPS://" && word == "youtube.com/x"
    ensures CheckValue(m + word) == None
  {
    LowerIsHttps(m);
    NoMarkerWithoutH(word);
    HostOfWord("youtube.com", "/x");
    assert "youtube.com" + "/x" == word;
    OneLinkHosts(m, word);
  }

  /** `https:// x` and `https:///` are rejected with an empty host. */
  lemma EmptyHostExamples()
    ensures CheckValue("https:// x") == Some("")
    ensures CheckValue("https:///") == Some("")
  {
    NoMarkerWithoutH(" x");
    EmptyHostIsRejected("https://", " x");
    assert "https://" + " x" == "https:// x";
    NoMarkerWithoutH("/");
    EmptyHostIsRejected("https://", "/");
    assert "https://" + "/" == "https:///";
  }

  /** Domains must match exactly: a subdomain is rejected, `https://www.youtube.com` fails. */
  lemma SubdomainIsRejected(m: string, word: string)
    requires m == "https://" && word == "www.youtube.com"
    ensures CheckValue(m + word) == Some(word)
  {
    LowerIsHttps(m);
    NoMarkerWithoutH(word);
    HostOfWord(word, "");
    assert word + "" == word;
    OneLinkHosts(m, word);
  }

  /** Domains are compared case-sensitively: `http://YouTube.com/` fails. */
  lemma DomainCaseMatters(m: string, word: string)
    requires m == "http://" && word == "YouTube.com/"
    ensures CheckValue(m + word) == Some("YouTube.com")
  {
    LowerIsHttp(m);
    NoMarkerWithoutH(word);
    HostOfWord("YouTube.com", "/");
    assert "YouTube.com" + "/" == word;
    OneLinkHosts(m, word);
  }
}
