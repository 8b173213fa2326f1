/** The string operations the reconciliation engine uses: `str.strip`,
    `str.lower`/`str.upper`, the `in` substring test and `"\n".join`. */
module Text {

  /** Python's `str.isspace` on one character. */
  predicate IsSpace(c: char)
  {
    c == ' ' || ('\t' <= c <= '\r') || ('\U{1c}' <= c <= '\U{1f}')
    || c == '\U{85}' || c == '\U{a0}' || c == '\U{1680}'
    || ('\U{2000}' <= c <= '\U{200a}') || c == '\U{2028}' || c == '\U{2029}'
    || c == '\U{202f}' || c == '\U{205f}' || c == '\U{3000}'
  }

  function TrimLeft(s: string): (r: string)
  {
    if s == [] || !IsSpace(s[0]) then s else TrimLeft(s[1..])
  }

  function TrimRight(s: string): (r: string)
  {
    if s == [] || !IsSpace(s[|s| - 1]) then s else TrimRight(s[..|s| - 1])
  }

  lemma {:induction false} TrimLeftShape(s: string)
    ensures |TrimLeft(s)| <= |s| && TrimLeft(s) == s[|s| - |TrimLeft(s)|..]
    ensures TrimLeft(s) == [] || !IsSpace(TrimLeft(s)[0])
    ensures forall i :: 0 <= i < |s| - |TrimLeft(s)| ==> IsSpace(s[i])
    decreases |s|
  {
    if s != [] && IsSpace(s[0]) { TrimLeftShape(s[1..]); }
  }

  lemma {:induction false} TrimRightShape(s: string)
    ensures |TrimRight(s)| <= |s| && TrimRight(s) == s[..|TrimRight(s)|]
    ensures TrimRight(s) == [] || !IsSpace(TrimRight(s)[|TrimRight(s)| - 1])
    ensures forall i :: |TrimRight(s)| <= i < |s| ==> IsSpace(s[i])
    decreases |s|
  {
    if s != [] && IsSpace(s[|s| - 1]) { TrimRightShape(s[..|s| - 1]); }
  }

  /** `s.strip()`. */
  function Strip(s: string): string
  {
    TrimRight(TrimLeft(s))
  }

  /** `s.strip()` is the middle of `s` between leading and trailing white space. */
  lemma StripShape(s: string)
    ensures exists i, j ::
      && 0 <= i <= j <= |s| && Strip(s) == s[i..j]
      && (forall k :: 0 <= k < i ==> IsSpace(s[k]))
      && (forall k :: j <= k < |s| ==> IsSpace(s[k]))
    ensures Strip(s) == [] || (!IsSpace(Strip(s)[0]) && !IsSpace(Strip(s)[|Strip(s)| - 1]))
  {
    var l := TrimLeft(s);
    var r := TrimRight(l);
    TrimLeftShape(s);
    TrimRightShape(l);
    assert r == s[|s| - |l|..|s| - |l| + |r|];
  }

  /** A string is blank after `strip()` exactly when all its characters are white space. */
  lemma StripBlank(s: string)
    ensures Strip(s) == [] <==> forall k :: 0 <= k < |s| ==> IsSpace(s[k])
  {
    var l := TrimLeft(s);
    TrimLeftShape(s);
    TrimRightShape(l);
    assert |l| > 0 ==> l[0] == s[|s| - |l|];
    assert |TrimRight(l)| > 0 ==> TrimRight(l)[0] == s[|s| - |l|];
  }

  /** Stripping twice is stripping once. */
  lemma StripIdempotent(s: string)
    ensures Strip(Strip(s)) == Strip(s)
  {
    var r := Strip(s);
    StripShape(s);
    TrimLeftShape(r);
    TrimRightShape(TrimLeft(r));
    if r != [] {
      assert TrimLeft(r) == r;
      assert TrimRight(r) == r;
    }
  }

  function LowerChar(c: char): char
  {
    if 'A' <= c <= 'Z' then (c as int + 32) as char else c
  }

  function UpperChar(c: char): char
  {
    if 'a' <= c <= 'z' then (c as int - 32) as char else c
  }

  /** `s.lower()` on the ASCII letters. */
  function Lower(s: string): (r: string)
    ensures |r| == |s|
  {
    if s == [] then [] else [LowerChar(s[0])] + Lower(s[1..])
  }

  /** `s.upper()` on the ASCII letters. */
  function Upper(s: string): (r: string)
    ensures |r| == |s|
  {
    if s == [] then [] else [UpperChar(s[0])] + Upper(s[1..])
  }

  /** Case mapping keeps the length and maps each character on its own. */
  lemma {:induction false} CaseMapAt(s: string)
    ensures forall i :: 0 <= i < |s| ==> Lower(s)[i] == LowerChar(s[i]) && Upper(s)[i] == UpperChar(s[i])
    decreases |s|
  {
    if s != [] {
      CaseMapAt(s[1..]);
    }
  }

  /** Case mapping at one position. */
  lemma {:induction false} CaseAt(s: string, i: int)
    requires 0 <= i < |s|
    ensures Lower(s)[i] == LowerChar(s[i]) && Upper(s)[i] == UpperChar(s[i])
    decreases i
  {
    if i > 0 {
      CaseAt(s[1..], i - 1);
    }
  }

  /** Python's `t in s` for strings. */
  predicate Contains(s: string, t: string)
    decreases |s|
  {
    |t| <= |s| && (t <= s || Contains(s[1..], t))
  }

  /** `t` occurs in `s` starting at position `i`. */
  predicate OccursAt(s: string, t: string, i: int)
  {
    0 <= i && i + |t| <= |s| && s[i..i + |t|] == t
  }

  /** An occurrence at a position makes `t in s` true. */
  lemma {:induction false} ContainsAt(s: string, t: string, i: int)
    requires OccursAt(s, t, i)
    ensures Contains(s, t)
    decreases i
  {
    if i > 0 {
      assert s[1..][i - 1..i - 1 + |t|] == s[i..i + |t|];
      ContainsAt(s[1..], t, i - 1);
    } else {
      assert t <= s;
    }
  }

  /** The nine characters of `w` at position `i` of `v`. */
  lemma Spelled(w: string, v: string, i: int)
    requires 0 <= i && i + 9 <= |v| && w == v[i..i + 9]
    ensures v[i] == w[0] && v[i + 1] == w[1] && v[i + 2] == w[2]
    ensures v[i + 3] == w[3] && v[i + 4] == w[4] && v[i + 5] == w[5]
    ensures v[i + 6] == w[6] && v[i + 7] == w[7] && v[i + 8] == w[8]
  {
  }

  /** The converse of `Spelled`: nine characters of `u` matching `w` one by one spell `w` at `i`. */
  lemma Unspelled(w: string, u: string, i: int)
    requires |w| == 9 && 0 <= i && i + 9 <= |u|
    requires u[i] == w[0] && u[i + 1] == w[1] && u[i + 2] == w[2]
    requires u[i + 3] == w[3] && u[i + 4] == w[4] && u[i + 5] == w[5]
    requires u[i + 6] == w[6] && u[i + 7] == w[7] && u[i + 8] == w[8]
    ensures OccursAt(u, w, i)
  {
    assert u[i..i + 9] == [u[i], u[i + 1], u[i + 2], u[i + 3], u[i + 4], u[i + 5], u[i + 6], u[i + 7], u[i + 8]];
    assert w == [w[0], w[1], w[2], w[3], w[4], w[5], w[6], w[7], w[8]];
  }

  /** A letter in either case reads as its lower-case form after `lower()`. */
  lemma LowerAt(v: string, i: int, upper: char, lower: char)
    requires 0 <= i < |v| && (v[i] == upper || v[i] == lower)
    requires LowerChar(upper) == lower && LowerChar(lower) == lower
    ensures Lower(v)[i] == lower
  {
    CaseAt(v, i);
  }

  /** A letter in either case reads as its upper-case form after `upper()`. */
  lemma UpperAt(v: string, i: int, lower: char, upper: char)
    requires 0 <= i < |v| && (v[i] == lower || v[i] == upper)
    requires UpperChar(lower) == upper && UpperChar(upper) == upper
    ensures Upper(v)[i] == upper
  {
    CaseAt(v, i);
  }

  /** `t in s` gives a position where `t` occurs. */
  lemma {:induction false} ContainsWitness(s: string, t: string) returns (i: int)
    requires Contains(s, t)
    ensures OccursAt(s, t, i)
    decreases |s|
  {
    if t <= s {
      i := 0;
      assert s[..|t|] == t;
    } else {
      var j := ContainsWitness(s[1..], t);
      i := j + 1;
      assert s[1..][j..j + |t|] == s[i..i + |t|];
    }
  }

  /** `sep.join(parts)`. */
  function Join(parts: seq<string>, sep: string): string
  {
    if parts == [] then ""
    else if |parts| == 1 then parts[0]
    else Join(parts[..|parts| - 1], sep) + sep + parts[|parts| - 1]
  }

  /** `s.replace(a, b)` for one-character `a` and `b`. */
  function ReplaceChar(s: string, a: char, b: char): (r: string)
    ensures |r| == |s|
  {
    seq(|s|, i requires 0 <= i < |s| => if s[i] == a then b else s[i])
  }
}
