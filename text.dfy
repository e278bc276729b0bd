/**
  String helpers used by the request validator: Python's notion of a
  whitespace character, `str.strip()` with no argument, and `str.join`.
  A separator-splitting function recovers the list from `Join` under the
  conditions of `SplitJoin`, and shows that a joined list can be read back
  from the text it produces.
 */
module Text {

  /** The characters for which Python 3's `str.isspace()` holds; these are
      exactly the characters `str.strip()` removes when called with no
      argument. */
  predicate IsWhitespace(c: char) {
    || ('\t' <= c <= '\r')              // tab, line feed, vertical tab, form feed, carriage return
    || ('\U{1C}' <= c <= '\U{1F}')      // file, group, record and unit separators
    || c == ' '
    || c == '\U{85}'                    // next line
    || c == '\U{A0}'                    // no-break space
    || c == '\U{1680}'                  // ogham space mark
    || ('\U{2000}' <= c <= '\U{200A}')  // en quad .. hair space
    || c == '\U{2028}' || c == '\U{2029}'
    || c == '\U{202F}' || c == '\U{205F}' || c == '\U{3000}'
  }

  /** Every character of `s` is whitespace (vacuously so for ""). */
  predicate IsBlank(s: string) {
    forall i :: 0 <= i < |s| ==> IsWhitespace(s[i])
  }

  /** Python's `s.lstrip()`: the longest suffix of `s` that does not start
      with whitespace. */
  function TrimStart(s: string): (r: string)
    ensures |r| <= |s| && r == s[|s| - |r|..]
    ensures forall i :: 0 <= i < |s| - |r| ==> IsWhitespace(s[i])
    ensures r == [] || !IsWhitespace(r[0])
    decreases |s|
  {
    if s != [] && IsWhitespace(s[0]) then TrimStart(s[1..]) else s
  }

  /** Python's `s.rstrip()`: the longest prefix of `s` that does not end
      with whitespace. */
  function TrimEnd(s: string): (r: string)
    ensures |r| <= |s| && r == s[..|r|]
    ensures forall i :: |r| <= i < |s| ==> IsWhitespace(s[i])
    ensures r == [] || !IsWhitespace(r[|r| - 1])
    decreases |s|
  {
    if s != [] && IsWhitespace(s[|s| - 1]) then TrimEnd(s[..|s| - 1]) else s
  }

  /** `r` is the infix of `s` starting at `k`, and every character of `s`
      before or after it is whitespace. */
  predicate Surrounds(s: string, k: int, r: string) {
    && 0 <= k && k + |r| <= |s| && r == s[k..k + |r|]
    && (forall i :: 0 <= i < k ==> IsWhitespace(s[i]))
    && (forall i :: k + |r| <= i < |s| ==> IsWhitespace(s[i]))
  }

  /** Python's `s.strip()`: `s` with its leading and trailing whitespace
      removed. The result sits inside `s` with only whitespace around it,
      and it neither starts nor ends with whitespace. */
  function Strip(s: string): (r: string)
    ensures exists k :: Surrounds(s, k, r)
    ensures r == [] || (!IsWhitespace(r[0]) && !IsWhitespace(r[|r| - 1]))
  {
    var t := TrimStart(s);
    var r := TrimEnd(t);
    SurroundsOfTrims(s, |s| - |t|, t, r);
    r
  }

  /** Whitespace before `k` and a whitespace tail after `r` in the rest of
      `s` leave `r` surrounded by whitespace in `s`. */
  lemma SurroundsOfTrims(s: string, k: nat, t: string, r: string)
    requires k <= |s| && t == s[k..] && (forall i :: 0 <= i < k ==> IsWhitespace(s[i]))
    requires |r| <= |t| && r == t[..|r|] && (forall j :: |r| <= j < |t| ==> IsWhitespace(t[j]))
    ensures Surrounds(s, k, r)
  {
  }

  /** Stripping leaves nothing exactly when the text is blank: this is
      what Python's `not s.strip()` tests. */
  lemma StripEmptyIffBlank(s: string)
    ensures Strip(s) == [] <==> IsBlank(s)
  {
  }

  /** `p` begins with `prefix`. */
  predicate StartsWith(p: string, prefix: string) {
    |prefix| <= |p| && p[..|prefix|] == prefix
  }

  /** `p` ends with `suffix`. */
  predicate EndsWith(p: string, suffix: string) {
    |suffix| <= |p| && p[|p| - |suffix|..] == suffix
  }

  /** Python's `sep.join(xs)`. */
  function Join(xs: seq<string>, sep: string): string
    decreases |xs|
  {
    if xs == [] then []
    else if |xs| == 1 then xs[0]
    else xs[0] + sep + Join(xs[1..], sep)
  }

  /** Splits `s` at every occurrence of the non-empty separator `sep`,
      scanning left to right (Python's `s.split(sep)`). */
  function SplitOn(s: string, sep: string): (parts: seq<string>)
    requires sep != []
    ensures |parts| >= 1
    decreases |s|
  {
    if |sep| <= |s| && s[..|sep|] == sep then [""] + SplitOn(s[|sep|..], sep)
    else if s == [] then [""]
    else
      var rest := SplitOn(s[1..], sep);
      [[s[0]] + rest[0]] + rest[1..]
  }

  /** `c` does not occur in `s`. */
  predicate Avoids(s: string, c: char) {
    forall i :: 0 <= i < |s| ==> s[i] != c
  }

  /** A field without the separator's first character is read back whole,
      and the split carries on after it. */
  lemma {:induction false} SplitOnAfterField(x: string, t: string, sep: string)
    requires sep != [] && Avoids(x, sep[0])
    ensures SplitOn(x + t, sep) == [x + SplitOn(t, sep)[0]] + SplitOn(t, sep)[1..]
    decreases |x|
  {
    if x != [] {
      var s := x + t;
      assert s[0] == x[0] != sep[0];
      if |sep| <= |s| {
        assert s[..|sep|][0] != sep[0];
      }
      assert s[1..] == x[1..] + t;
      SplitOnAfterField(x[1..], t, sep);
      assert [s[0]] + (x[1..] + SplitOn(t, sep)[0]) == x + SplitOn(t, sep)[0];
    } else {
      var parts := SplitOn(t, sep);
      assert x + t == t;
      assert x + parts[0] == parts[0];
      assert [parts[0]] + parts[1..] == parts;
    }
  }

  /** Splitting a joined list at the separator gives back the list, when
      no element contains the separator's first character. */
  lemma {:induction false} SplitJoin(xs: seq<string>, sep: string)
    requires sep != [] && xs != []
    requires forall i :: 0 <= i < |xs| ==> Avoids(xs[i], sep[0])
    ensures SplitOn(Join(xs, sep), sep) == xs
    decreases |xs|
  {
    if |xs| == 1 {
      SplitOnAfterField(xs[0], [], sep);
      assert xs[0] + [] == xs[0];
    } else {
      var tail := Join(xs[1..], sep);
      assert Join(xs, sep) == xs[0] + (sep + tail);
      SplitOnAfterField(xs[0], sep + tail, sep);
      assert (sep + tail)[..|sep|] == sep;
      assert (sep + tail)[|sep|..] == tail;
      SplitJoin(xs[1..], sep);
      assert SplitOn(sep + tail, sep) == [""] + xs[1..];
      assert xs[0] + "" == xs[0];
      assert [xs[0]] + xs[1..] == xs;
    }
  }
}
