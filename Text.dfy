/**
 * The string primitives the allow-list parser uses: ASCII lower-casing
 * (`toLowerCase`), whitespace trimming (`trim`) and splitting on a
 * separator character (`split`), with the JavaScript semantics of each.
 */
module Text {

  /** ECMAScript WhiteSpace and LineTerminator code points, the set `trim` strips. */
  predicate IsWhitespace(c: char) {
    var n := c as int;
    n == 0x09 || n == 0x0A || n == 0x0B || n == 0x0C || n == 0x0D || n == 0x20
    || n == 0xA0 || n == 0x1680 || (0x2000 <= n <= 0x200A)
    || n == 0x2028 || n == 0x2029 || n == 0x202F || n == 0x205F
    || n == 0x3000 || n == 0xFEFF
  }

  predicate IsUpper(c: char) {
    'A' <= c <= 'Z'
  }

  /** Lower-cases one character (ASCII letters only). */
  function LowerChar(c: char): (r: char)
    ensures !IsUpper(r)
    ensures !IsUpper(c) ==> r == c
  {
    if IsUpper(c) then (c as int + 32) as char else c
  }

  /** Lower-casing never turns whitespace into a letter or the reverse. */
  lemma LowerKeepsWhitespace(c: char)
    ensures IsWhitespace(LowerChar(c)) <==> IsWhitespace(c)
  {
  }

  predicate HasNoUpper(s: string) {
    forall i :: 0 <= i < |s| ==> !IsUpper(s[i])
  }

  predicate AllWhitespace(s: string) {
    forall i :: 0 <= i < |s| ==> IsWhitespace(s[i])
  }

  /** `s.toLowerCase()`, restricted to ASCII case mapping. */
  function ToLower(s: string): (r: string)
    ensures |r| == |s|
    ensures HasNoUpper(r)
    ensures forall i :: 0 <= i < |s| ==> r[i] == LowerChar(s[i])
  {
    if s == [] then [] else [LowerChar(s[0])] + ToLower(s[1..])
  }

  /** Lower-casing changes nothing in a string that has no upper-case letter. */
  lemma ToLowerOfLower(s: string)
    requires HasNoUpper(s)
    ensures ToLower(s) == s
  {
  }

  /** Removes the leading whitespace (`TrimStartSlice` says what is cut). */
  function TrimStart(s: string): (r: string)
    ensures |r| <= |s|
    ensures r == [] || !IsWhitespace(r[0])
    decreases |s|
  {
    if s != [] && IsWhitespace(s[0]) then TrimStart(s[1..]) else s
  }

  /** Removes the trailing whitespace (`TrimEndSlice` says what is cut). */
  function TrimEnd(s: string): (r: string)
    ensures |r| <= |s|
    ensures r == [] || !IsWhitespace(r[|r| - 1])
    decreases |s|
  {
    if s != [] && IsWhitespace(s[|s| - 1]) then TrimEnd(s[..|s| - 1]) else s
  }

  /** `TrimStart` keeps a suffix of `s` and cuts only whitespace. */
  lemma {:induction false} TrimStartSlice(s: string)
    ensures TrimStart(s) == s[|s| - |TrimStart(s)|..]
    ensures AllWhitespace(s[..|s| - |TrimStart(s)|])
    decreases |s|
  {
    if s != [] && IsWhitespace(s[0]) {
      var r := TrimStart(s);
      TrimStartSlice(s[1..]);
      var k := |s| - |r|;
      assert r == s[1..][k - 1..];
      forall i | 0 <= i < k ensures IsWhitespace(s[..k][i]) {
        if i > 0 { assert s[..k][i] == s[1..][..k - 1][i - 1]; }
      }
    }
  }

  /** `TrimEnd` keeps a prefix of `s` and cuts only whitespace. */
  lemma {:induction false} TrimEndSlice(s: string)
    ensures TrimEnd(s) == s[..|TrimEnd(s)|]
    ensures AllWhitespace(s[|TrimEnd(s)|..])
    decreases |s|
  {
    if s != [] && IsWhitespace(s[|s| - 1]) {
      var r := TrimEnd(s);
      var t := s[..|s| - 1];
      TrimEndSlice(t);
      var k := |r|;
      assert r == t[..k];
      forall j | 0 <= j < |s| - k ensures IsWhitespace(s[k..][j]) {
        if j < |s| - 1 - k { assert s[k..][j] == t[k..][j]; }
      }
    }
  }

  /**
   * `s.trim()`: what is left has no whitespace at either end and is empty
   * exactly when `s` is all whitespace; `TrimIsInfix` adds that it is a
   * contiguous part of `s` with only whitespace cut away.
   */
  function Trim(s: string): (r: string)
    ensures r == [] || (!IsWhitespace(r[0]) && !IsWhitespace(r[|r| - 1]))
    ensures r == [] <==> AllWhitespace(s)
  {
    var t := TrimStart(s);
    var r := TrimEnd(t);
    assert (r == [] || (!IsWhitespace(r[0]) && !IsWhitespace(r[|r| - 1]))) && (r == [] <==> AllWhitespace(s)) by {
      TrimStartSlice(s);
      TrimEndSlice(t);
      var lead := |s| - |t|;
      if r == [] {
        AllWhitespaceConcat(s[..lead], t);
        assert s == s[..lead] + t;
      } else {
        assert r[0] == t[0] == s[lead];
      }
    }
    r
  }

  lemma AllWhitespaceConcat(a: string, b: string)
    requires AllWhitespace(a) && AllWhitespace(b)
    ensures AllWhitespace(a + b)
  {
  }

  /** The trimmed string sits inside `s` between two runs of whitespace. */
  lemma TrimIsInfix(s: string) returns (lead: nat)
    ensures lead + |Trim(s)| <= |s|
    ensures forall i :: 0 <= i < |Trim(s)| ==> Trim(s)[i] == s[lead + i]
    ensures forall i :: 0 <= i < lead ==> IsWhitespace(s[i])
    ensures forall i :: lead + |Trim(s)| <= i < |s| ==> IsWhitespace(s[i])
  {
    var t := TrimStart(s);
    var r := TrimEnd(t);
    assert Trim(s) == r;
    lead := |s| - |t|;
    assert t == s[lead..] && AllWhitespace(s[..lead]) by { TrimStartSlice(s); }
    assert r == t[..|r|] && AllWhitespace(t[|r|..]) by { TrimEndSlice(t); }
    forall i | 0 <= i < |r| ensures r[i] == s[lead + i] {
      assert r[i] == t[i];
    }
    forall i | 0 <= i < lead ensures IsWhitespace(s[i]) {
      assert s[..lead][i] == s[i];
    }
    forall i | lead + |r| <= i < |s| ensures IsWhitespace(s[i]) {
      assert t[|r|..][i - lead - |r|] == s[i];
    }
  }

  /** Trimming a string with no upper-case letter leaves none. */
  lemma TrimKeepsNoUpper(s: string)
    requires HasNoUpper(s)
    ensures HasNoUpper(Trim(s))
  {
    var lead := TrimIsInfix(s);
  }

  /** Trimming changes nothing in a string with no whitespace at its ends. */
  lemma TrimOfTrimmed(s: string)
    requires s == [] || (!IsWhitespace(s[0]) && !IsWhitespace(s[|s| - 1]))
    ensures Trim(s) == s
  {
  }

  /**
   * `s.split(sep)`: the fields between occurrences of `sep`, in order.
   * There is always at least one field (`"".split(",")` is `[""]`), and
   * no field contains the separator.
   */
  function Split(s: string, sep: char): (r: seq<string>)
    ensures |r| >= 1
    ensures forall k :: 0 <= k < |r| ==> sep !in r[k]
  {
    if s == [] then [""]
    else
      var rest := Split(s[1..], sep);
      if s[0] == sep then [""] + rest
      else [[s[0]] + rest[0]] + rest[1..]
  }

  /** The inverse of `Split`: the fields glued back with the separator. */
  function Join(fields: seq<string>, sep: char): string
    requires |fields| >= 1
  {
    if |fields| == 1 then fields[0] else fields[0] + [sep] + Join(fields[1..], sep)
  }

  /** Splitting loses nothing: joining the fields gives the input back. */
  lemma {:induction false} JoinSplit(s: string, sep: char)
    ensures Join(Split(s, sep), sep) == s
  {
    if s != [] {
      JoinSplit(s[1..], sep);
      var rest := Split(s[1..], sep);
      if s[0] != sep {
        if |rest| > 1 {
          assert Split(s, sep)[1..] == rest[1..];
        }
      }
    }
  }
}
