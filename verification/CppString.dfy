/** The part of `std::string` that the program relies on, with the `size_t`
    arithmetic written out: `npos` is the largest 64-bit value, sums and
    differences of positions wrap around, and `substr` fails on a start
    position beyond the end. */
module CppString {

  datatype Option<+T> = None | Some(value: T)

  /** `std::string::npos`; every string is shorter than this. */
  const NPOS: nat := 0xFFFF_FFFF_FFFF_FFFF

  /** `string(const char*)` and `c_str()`: the text stops at the first NUL. */
  const NUL: char := '\0'

  /** `MSG_VOID`, the filler of fields that carry nothing. */
  const VOID: string := " "

  /** a - b on `size_t`. */
  function SizeSub(a: nat, b: nat): nat
    requires a <= NPOS && b <= NPOS
  {
    if a >= b then a - b else a + (NPOS + 1) - b
  }

  /** a + 1 on `size_t`. */
  function SizeSucc(a: nat): nat
    requires a <= NPOS
  {
    if a == NPOS then 0 else a + 1
  }

  /** `s.find_first_of(c, from)`, also `s.find(c, from)`. */
  function FindFirstOf(s: string, c: char, from: nat): (pos: nat)
    requires |s| < NPOS
    ensures pos == NPOS || (from <= pos < |s| && s[pos] == c)
    ensures forall i :: from <= i < |s| && i < pos ==> s[i] != c
    decreases if from < |s| then |s| - from else 0
  {
    if from >= |s| then NPOS
    else if s[from] == c then from
    else FindFirstOf(s, c, from + 1)
  }

  /** `s.find_first_not_of(c, from)`. */
  function FindFirstNotOf(s: string, c: char, from: nat): (pos: nat)
    requires |s| < NPOS
    ensures pos == NPOS || (from <= pos < |s| && s[pos] != c)
    ensures forall i :: from <= i < |s| && i < pos ==> s[i] == c
    decreases if from < |s| then |s| - from else 0
  {
    if from >= |s| then NPOS
    else if s[from] != c then from
    else FindFirstNotOf(s, c, from + 1)
  }

  /** `s.substr(pos, n)`; None is the `out_of_range` exception. */
  function Substr(s: string, pos: nat, n: nat): Option<string> {
    if pos > |s| then None
    else if n >= |s| - pos then Some(s[pos..])
    else Some(s[pos..pos + n])
  }

  /** The text a C string buffer denotes: everything before the first NUL. */
  function CText(s: string): (t: string)
    ensures NUL !in t && |t| <= |s|
    ensures NUL !in s ==> t == s
    ensures forall c :: c !in s ==> c !in t
  {
    if s == "" || s[0] == NUL then "" else [s[0]] + CText(s[1..])
  }

  /** Where a C string ends. */
  lemma {:induction false} CTextIs(text: string, rest: string)
    requires NUL !in text
    ensures CText(text) == text && CText(text + [NUL] + rest) == text
  {
    if text == "" {
      assert "" + [NUL] + rest == [NUL] + rest;
    } else {
      CTextIs(text[1..], rest);
      assert text + [NUL] + rest == [text[0]] + (text[1..] + [NUL] + rest);
    }
  }

  /** Non-empty and without the given characters. */
  predicate Clean(s: string, banned: string) {
    s != "" && forall c :: c in banned ==> c !in s
  }

  lemma Assoc(a: string, b: string, c: string)
    ensures a + b + c == a + (b + c)
  {
  }

  /** Modulo 2 to the 64. */
  lemma SizeIs(a: nat, b: nat)
    requires a < 18_446_744_073_709_551_616 && b < 18_446_744_073_709_551_616
    ensures NPOS == 18_446_744_073_709_551_615
    ensures SizeSub(a, b) < 18_446_744_073_709_551_616 && (SizeSub(a, b) - (a - b)) % 18_446_744_073_709_551_616 == 0
    ensures SizeSucc(a) < 18_446_744_073_709_551_616 && (SizeSucc(a) - (a + 1)) % 18_446_744_073_709_551_616 == 0
  {
  }

  /** A start behind the end is an error, a start at the end is not; the length is
      cut to what is there. */
  lemma SubstrIs(s: string, pos: nat, n: nat)
    ensures Substr(s, pos, n).Some? <==> pos <= |s|
    ensures pos <= |s| ==> var t := Substr(s, pos, n).value;
      && |t| == (if n <= |s| - pos then n else |s| - pos)
      && forall i :: 0 <= i < |t| ==> t[i] == s[pos + i]
  {
  }
}
