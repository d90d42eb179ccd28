/**
 * The two string operations the request handlers apply to form input:
 * Python's `str.strip()` (whitespace trimming on both ends) and `",".join(...)`
 * (flattening the selected allergy values into one column). `Split` is the
 * partner of `Join`: it recovers the values when none of them contains a comma.
 */
module Text {

  /** Python's `str.isspace` for one character: the characters `str.strip()` removes. */
  predicate IsSpace(c: char) {
    || c == ' '
    || '\t' <= c <= '\r'
    || '\U{1C}' <= c <= '\U{1F}'
    || c == '\U{85}'
    || c == '\U{A0}'
    || c == '\U{1680}'
    || '\U{2000}' <= c <= '\U{200A}'
    || c == '\U{2028}'
    || c == '\U{2029}'
    || c == '\U{202F}'
    || c == '\U{205F}'
    || c == '\U{3000}'
  }

  /** Every character of `s` is whitespace (true of the empty string). */
  predicate AllSpace(s: string) {
    forall k :: 0 <= k < |s| ==> IsSpace(s[k])
  }

  /** The number of whitespace characters at the start of `s`. */
  function LeadingSpace(s: string): (n: nat)
    ensures n <= |s|
    ensures forall k :: 0 <= k < n ==> IsSpace(s[k])
    ensures n < |s| ==> !IsSpace(s[n])
  {
    if s == [] || !IsSpace(s[0]) then 0 else 1 + LeadingSpace(s[1..])
  }

  /** The number of whitespace characters at the end of `s`. */
  function TrailingSpace(s: string): (n: nat)
    ensures n <= |s|
    ensures forall k :: |s| - n <= k < |s| ==> IsSpace(s[k])
    ensures n < |s| ==> !IsSpace(s[|s| - 1 - n])
  {
    if s == [] || !IsSpace(s[|s| - 1]) then 0 else 1 + TrailingSpace(s[..|s| - 1])
  }

  /** `r` sits at offset `i` of `s` with nothing but whitespace around it. */
  ghost predicate StrippedAt(s: string, r: string, i: int) {
    && 0 <= i && i + |r| <= |s|
    && s[i..i + |r|] == r
    && AllSpace(s[..i])
    && AllSpace(s[i + |r|..])
  }

  /** Python's `s.strip()`. */
  function Strip(s: string): (r: string)
    ensures r == [] <==> AllSpace(s)
    ensures r != [] ==> !IsSpace(r[0]) && !IsSpace(r[|r| - 1])
    ensures exists i :: StrippedAt(s, r, i)
  {
    var i := LeadingSpace(s);
    var r := if i == |s| then [] else s[i..|s| - TrailingSpace(s)];
    assert StrippedAt(s, r, i);
    r
  }

  /** Stripping twice is stripping once: stored, stripped values are fixed points. */
  lemma StripIdempotent(s: string)
    ensures Strip(Strip(s)) == Strip(s)
  {
    var r := Strip(s);
    if r != [] {
      assert LeadingSpace(r) == 0;
      assert TrailingSpace(r) == 0;
    }
  }

  /** The summed lengths of the values. */
  function TotalLength(parts: seq<string>): nat {
    if parts == [] then 0 else |parts[0]| + TotalLength(parts[1..])
  }

  /**
   * Python's `",".join(parts)`: the values in order, one comma between each
   * two, so the stored string holds every character of every value.
   */
  function Join(parts: seq<string>): (r: string)
    ensures parts != [] ==> |r| == TotalLength(parts) + |parts| - 1
    ensures parts != [] ==> r[..|parts[0]|] == parts[0]
  {
    if parts == [] then []
    else if |parts| == 1 then parts[0]
    else parts[0] + [','] + Join(parts[1..])
  }

  /** Python's `s.split(",")`: the pieces between the commas, at least one. */
  function Split(s: string): (r: seq<string>)
    ensures |r| >= 1
    ensures forall i :: 0 <= i < |r| ==> ',' !in r[i]
  {
    if s == [] then [[]]
    else
      var rest := Split(s[1..]);
      if s[0] == ',' then [[]] + rest
      else [[s[0]] + rest[0]] + rest[1..]
  }

  /** Prefixing the first piece of a non-empty list prefixes the joined string. */
  lemma JoinExtendsFirst(c: char, parts: seq<string>)
    requires parts != []
    ensures Join([[c] + parts[0]] + parts[1..]) == [c] + Join(parts)
  {
    var ps := [[c] + parts[0]] + parts[1..];
    if |parts| > 1 {
      assert ps[1..] == parts[1..];
    }
  }

  /** Splitting a string on its commas and joining the pieces gives the string back. */
  lemma {:induction false} JoinOfSplit(s: string)
    ensures Join(Split(s)) == s
  {
    if s != [] {
      var rest := Split(s[1..]);
      JoinOfSplit(s[1..]);
      if s[0] == ',' {
        assert ([[]] + rest)[1..] == rest;
      } else {
        JoinExtendsFirst(s[0], rest);
      }
      assert [s[0]] + s[1..] == s;
    }
  }

  /** A comma-free prefix extends the first piece of the split. */
  lemma {:induction false} SplitCommaFreePrefix(a: string, b: string)
    requires ',' !in a
    ensures Split(a + b) == [a + Split(b)[0]] + Split(b)[1..]
  {
    if a == [] {
      var sb := Split(b);
      assert a + b == b;
      assert a + sb[0] == sb[0];
      assert [sb[0]] + sb[1..] == sb;
    } else {
      assert (a + b)[1..] == a[1..] + b;
      SplitCommaFreePrefix(a[1..], b);
      assert [a[0]] + (a[1..] + Split(b)[0]) == a + Split(b)[0];
    }
  }

  /**
   * Joining values none of which holds a comma and splitting the result gives
   * the values back; only a non-empty list qualifies, since `Join([])` and
   * `Join([""])` are the same string.
   */
  lemma {:induction false} SplitOfJoin(parts: seq<string>)
    requires parts != []
    requires forall i :: 0 <= i < |parts| ==> ',' !in parts[i]
    ensures Split(Join(parts)) == parts
  {
    if |parts| == 1 {
      SplitCommaFreePrefix(parts[0], []);
      assert parts[0] + [] == parts[0];
    } else {
      var tail := Join(parts[1..]);
      SplitOfJoin(parts[1..]);
      SplitCommaFreePrefix(parts[0], [','] + tail);
      assert ([','] + tail)[1..] == tail;
      assert Split([','] + tail) == [[]] + parts[1..];
      assert parts[0] + [','] + tail == parts[0] + ([','] + tail);
      assert parts[0] + [] == parts[0];
      assert [parts[0]] + parts[1..] == parts;
    }
  }

  /** The flattening is lossy: a value holding a comma reads back as two values. */
  lemma JoinConflatesCommas(a: string, b: string)
    ensures Join([a + [','] + b]) == Join([a, b])
    ensures Join([]) == Join([[]])
  {
    assert [a, b][1..] == [b];
  }
}
