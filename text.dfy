/**
 * The handful of Python string operations the bot relies on, with their
 * Python meaning: str.strip(), str.startswith(), the `in` substring test,
 * str.split(sep), str.join, str.replace, str.lower() (for the Latin and
 * Cyrillic letters the bot's keywords use), f"{n}" and int(s).
 */
module Text {
  import opened Wrappers

  /** The characters Python's str.isspace() accepts, i.e. those str.strip() removes. */
  predicate IsSpace(c: char)
  {
    || c == ' '
    || ('\t' <= c <= '\r')
    || ('\U{1c}' <= c <= '\U{1f}')
    || c == '\U{85}' || c == '\U{a0}' || c == '\U{1680}'
    || ('\U{2000}' <= c <= '\U{200a}')
    || c == '\U{2028}' || c == '\U{2029}' || c == '\U{202f}' || c == '\U{205f}' || c == '\U{3000}'
  }

  /** A string whose `strip()` is empty, i.e. one that Python treats as false after stripping. */
  predicate IsBlank(s: string)
  {
    forall i :: 0 <= i < |s| ==> IsSpace(s[i])
  }

  /** str.lstrip(): drops the leading whitespace and nothing else. */
  function TrimLeft(s: string): string
    decreases |s|
  {
    if s != [] && IsSpace(s[0]) then TrimLeft(s[1..]) else s
  }

  lemma {:induction false} TrimLeftShape(s: string)
    ensures |TrimLeft(s)| <= |s| && TrimLeft(s) == s[|s| - |TrimLeft(s)|..]
    ensures forall i :: 0 <= i < |s| - |TrimLeft(s)| ==> IsSpace(s[i])
    ensures TrimLeft(s) == [] || !IsSpace(TrimLeft(s)[0])
    decreases |s|
  {
    if s != [] && IsSpace(s[0]) {
      TrimLeftShape(s[1..]);
    }
  }

  /** str.rstrip(): drops the trailing whitespace and nothing else. */
  function TrimRight(s: string): string
    decreases |s|
  {
    if s != [] && IsSpace(s[|s| - 1]) then TrimRight(s[..|s| - 1]) else s
  }

  lemma {:induction false} TrimRightShape(s: string)
    ensures |TrimRight(s)| <= |s| && TrimRight(s) == s[..|TrimRight(s)|]
    ensures forall i :: |TrimRight(s)| <= i < |s| ==> IsSpace(s[i])
    ensures TrimRight(s) == [] || !IsSpace(TrimRight(s)[|TrimRight(s)| - 1])
    decreases |s|
  {
    if s != [] && IsSpace(s[|s| - 1]) {
      TrimRightShape(s[..|s| - 1]);
    }
  }

  /** str.strip(): the text between the leading and the trailing whitespace. */
  function Strip(s: string): (r: string)
    ensures |r| <= |s|
    ensures IsStripped(r)
    ensures r == [] <==> IsBlank(s)
  {
    TrimLeftShape(s);
    TrimRightShape(TrimLeft(s));
    TrimRight(TrimLeft(s))
  }

  /**
   * str.strip() keeps a slice of its input: everything before the slice and
   * everything after it is whitespace (and, since the result is stripped, the
   * slice starts and ends with a non-space).
   */
  lemma StripShape(s: string)
    ensures exists i, j ::
              && 0 <= i <= j <= |s| && Strip(s) == s[i..j]
              && (forall k :: 0 <= k < i ==> IsSpace(s[k]))
              && (forall k :: j <= k < |s| ==> IsSpace(s[k]))
  {
    TrimLeftShape(s);
    var t := TrimLeft(s);
    TrimRightShape(t);
    var i := |s| - |t|;
    var j := i + |TrimRight(t)|;
    assert Strip(s) == s[i..j];
    forall k | j <= k < |s|
      ensures IsSpace(s[k])
    {
      assert s[k] == t[k - i];
    }
  }

  /** A string with no whitespace at either end, the shape str.strip() returns. */
  predicate IsStripped(s: string)
  {
    s == [] || (!IsSpace(s[0]) && !IsSpace(s[|s| - 1]))
  }

  lemma StrippedIsFixed(s: string)
    requires IsStripped(s)
    ensures Strip(s) == s
  {
    assert TrimLeft(s) == s;
    assert TrimRight(s) == s;
  }

  /** `s.startswith(prefix)` */
  predicate StartsWith(s: string, prefix: string)
  {
    |prefix| <= |s| && s[..|prefix|] == prefix
  }

  predicate OccursAt(s: string, sub: string, i: int)
  {
    0 <= i && i + |sub| <= |s| && s[i..i + |sub|] == sub
  }

  /** Python's `sub in s` on strings. */
  predicate Contains(s: string, sub: string)
  {
    exists i | 0 <= i <= |s| - |sub| :: OccursAt(s, sub, i)
  }

  lemma ContainsInfix(a: string, sub: string, b: string)
    ensures Contains(a + sub + b, sub)
  {
    var s := a + sub + b;
    assert s[|a|..|a| + |sub|] == sub;
    assert OccursAt(s, sub, |a|);
  }

  /** The first occurrence of `sep` in `s` at or after position `i`. */
  function FindFrom(s: string, sep: string, i: nat): (r: Option<nat>)
    requires |sep| > 0
    ensures r.Some? ==> i <= r.value && OccursAt(s, sep, r.value)
    ensures r.Some? ==> forall j :: i <= j < r.value ==> !OccursAt(s, sep, j)
    ensures r.None? ==> forall j :: i <= j ==> !OccursAt(s, sep, j)
    decreases |s| - i
  {
    if i + |sep| > |s| then None
    else if s[i..i + |sep|] == sep then Some(i)
    else FindFrom(s, sep, i + 1)
  }

  /** `sep.join(parts)` */
  function Join(parts: seq<string>, sep: string): string
  {
    if |parts| == 0 then ""
    else if |parts| == 1 then parts[0]
    else parts[0] + sep + Join(parts[1..], sep)
  }

  /**
   * `s.split(sep)` for a non-empty separator: cut at every occurrence, from the
   * left, without overlaps.
   */
  function Split(s: string, sep: string): (r: seq<string>)
    requires |sep| > 0
    ensures |r| >= 1
    decreases |s|
  {
    match FindFrom(s, sep, 0)
    case None => [s]
    case Some(i) => [s[..i]] + Split(s[i + |sep|..], sep)
  }

  /**
   * Joining the pieces of a split gives `s` back and no piece holds the
   * separator. There is more than one piece exactly when the separator
   * occurs.
   */
  lemma {:induction false} SplitShape(s: string, sep: string)
    requires |sep| > 0
    ensures Join(Split(s, sep), sep) == s
    ensures forall k :: 0 <= k < |Split(s, sep)| ==> !Contains(Split(s, sep)[k], sep)
    ensures |Split(s, sep)| == 1 <==> !Contains(s, sep)
    decreases |s|
  {
    match FindFrom(s, sep, 0)
    case None =>
    case Some(i) =>
      var rest := Split(s[i + |sep|..], sep);
      SplitShape(s[i + |sep|..], sep);
      SplitAtFirst(s, sep, i);
      JoinCons(s[..i], rest, sep);
      assert Split(s, sep) == [s[..i]] + rest;
  }

  lemma SplitAtFirst(s: string, sep: string, i: nat)
    requires |sep| > 0 && FindFrom(s, sep, 0) == Some(i)
    ensures !Contains(s[..i], sep)
    ensures Contains(s, sep)
    ensures s == s[..i] + sep + s[i + |sep|..]
  {
    var head := s[..i];
    forall j | 0 <= j <= |head| - |sep|
      ensures !OccursAt(head, sep, j)
    {
      PrefixKeepsMiss(s, sep, i, j);
    }
    assert OccursAt(s, sep, i);
    assert s == s[..i] + s[i..i + |sep|] + s[i + |sep|..];
  }

  /** An occurrence in a prefix would be one in the whole string. */
  lemma PrefixKeepsMiss(s: string, sep: string, i: nat, j: nat)
    requires j + |sep| <= i <= |s| && !OccursAt(s, sep, j)
    ensures !OccursAt(s[..i], sep, j)
  {
    assert s[..i][j..j + |sep|] == s[j..j + |sep|];
  }

  lemma JoinCons(head: string, rest: seq<string>, sep: string)
    requires |rest| >= 1
    ensures Join([head] + rest, sep) == head + sep + Join(rest, sep)
  {
    assert ([head] + rest)[1..] == rest;
  }

  /** `s.replace(target, replacement)` for a non-empty `target`: Python defines it as split-then-join. */
  function Replace(s: string, target: string, replacement: string): (r: string)
    requires |target| > 0
    ensures !Contains(s, target) ==> r == s
  {
    SplitShape(s, target);
    Join(Split(s, target), replacement)
  }

  /**
   * `replace` works from the left: the text before the first occurrence is
   * kept, that occurrence becomes the replacement, and the rest of the string
   * is replaced in turn.
   */
  lemma ReplaceFirst(s: string, target: string, replacement: string, i: nat)
    requires |target| > 0 && FindFrom(s, target, 0) == Some(i)
    ensures Replace(s, target, replacement)
         == s[..i] + replacement + Replace(s[i + |target|..], target, replacement)
  {
    SplitFirst(s, target, i);
    assert Replace(s, target, replacement) == Join(Split(s, target), replacement);
  }

  /** The first piece ends at the first occurrence; the others split the rest. */
  lemma SplitFirst(s: string, sep: string, i: nat)
    requires |sep| > 0 && FindFrom(s, sep, 0) == Some(i)
    ensures |Split(s, sep)| >= 2
    ensures Split(s, sep)[0] == s[..i]
    ensures Split(s, sep)[1..] == Split(s[i + |sep|..], sep)
  {
    var head, tail := s[..i], s[i + |sep|..];
    var parts := [head] + Split(tail, sep);
    assert Split(s, sep) == parts;
    assert parts[1..] == Split(tail, sep);
  }

  /** Replacing a string by itself changes nothing. */
  lemma ReplaceSelf(s: string, target: string)
    requires |target| > 0
    ensures Replace(s, target, target) == s
  {
    SplitShape(s, target);
  }

  /** The first occurrence is the one at `i` when none starts before it. */
  lemma FindFromFirst(s: string, sep: string, i: nat)
    requires |sep| > 0 && OccursAt(s, sep, i)
    requires forall j :: 0 <= j < i ==> !OccursAt(s, sep, j)
    ensures FindFrom(s, sep, 0) == Some(i)
  {
  }

  /** `[p.strip() for p in pieces if p.strip()]` */
  function NonBlankStripped(pieces: seq<string>): (r: seq<string>)
    ensures |r| <= |pieces|
    ensures forall k :: 0 <= k < |r| ==> r[k] != [] && IsStripped(r[k])
  {
    if pieces == [] then []
    else
      var head := Strip(pieces[0]);
      (if head == [] then [] else [head]) + NonBlankStripped(pieces[1..])
  }

  /** The comprehension keeps the order of its input: it works piece by piece. */
  lemma {:induction false} NonBlankStrippedAppend(a: seq<string>, b: seq<string>)
    ensures NonBlankStripped(a + b) == NonBlankStripped(a) + NonBlankStripped(b)
  {
    if a != [] {
      assert (a + b)[1..] == a[1..] + b;
      NonBlankStrippedAppend(a[1..], b);
    } else {
      assert a + b == b;
    }
  }

  lemma NonBlankStrippedSingle(p: string)
    ensures NonBlankStripped([p]) == if IsBlank(p) then [] else [Strip(p)]
  {
    assert [p][1..] == [];
  }

  /** The capitals str.lower() maps in this model: ASCII and Cyrillic U+0400..U+042F. */
  predicate IsUpper(c: char)
  {
    ('A' <= c <= 'Z') || ('\U{400}' <= c <= '\U{42f}')
  }

  /** str.lower() on one character: a capital becomes its small letter, anything else stays. */
  function LowerChar(c: char): (r: char)
    ensures !IsUpper(r)
    ensures !IsUpper(c) ==> r == c
    ensures ('A' <= c <= 'Z' || '\U{410}' <= c <= '\U{42f}') ==> r as int == c as int + 32
    ensures '\U{400}' <= c <= '\U{40f}' ==> r as int == c as int + 80
  {
    if 'A' <= c <= 'Z' then (c as int + 32) as char
    else if '\U{410}' <= c <= '\U{42f}' then (c as int + 32) as char
    else if '\U{400}' <= c <= '\U{40f}' then (c as int + 80) as char
    else c
  }

  /** str.lower(): the same length, no capital left, and a string without capitals is kept. */
  function Lower(s: string): (r: string)
    ensures |r| == |s|
    ensures forall i :: 0 <= i < |r| ==> !IsUpper(r[i])
    ensures (forall i :: 0 <= i < |s| ==> !IsUpper(s[i])) ==> r == s
  {
    seq(|s|, i requires 0 <= i < |s| => LowerChar(s[i]))
  }

  /**
   * lower() works character by character: every other character stays in
   * place, and each capital becomes its own small letter (ASCII and
   * U+0410..U+042F move by 32, U+0400..U+040F by 80).
   */
  lemma LowerShape(s: string)
    ensures forall i :: 0 <= i < |s| && !IsUpper(s[i]) ==> Lower(s)[i] == s[i]
    ensures forall i :: 0 <= i < |s| && ('A' <= s[i] <= 'Z' || '\U{410}' <= s[i] <= '\U{42f}') ==>
      Lower(s)[i] as int == s[i] as int + 32
    ensures forall i :: 0 <= i < |s| && '\U{400}' <= s[i] <= '\U{40f}' ==> Lower(s)[i] as int == s[i] as int + 80
  {
  }

  predicate IsDigit(c: char)
  {
    '0' <= c <= '9'
  }

  predicate AllDigits(s: string)
  {
    forall i :: 0 <= i < |s| ==> IsDigit(s[i])
  }

  function DigitChar(d: nat): char
    requires d < 10
  {
    ('0' as int + d) as char
  }

  /** f"{n}" for a natural number: its decimal digits. */
  function NatToString(n: nat): (r: string)
    ensures r != [] && AllDigits(r)
  {
    if n < 10 then [DigitChar(n)] else NatToString(n / 10) + [DigitChar(n % 10)]
  }

  function DigitsValue(s: string): nat
    requires AllDigits(s)
  {
    if s == [] then 0 else DigitsValue(s[..|s| - 1]) * 10 + (s[|s| - 1] as int - '0' as int)
  }

  /**
   * int(s) on ASCII digit strings; anything else is a ValueError, here None.
   * Python also accepts a sign, surrounding whitespace, underscores between
   * digits and non-ASCII decimal digits, which this decoder rejects.
   */
  function ParseNat(s: string): (r: Option<nat>)
    ensures r.Some? <==> s != [] && AllDigits(s)
  {
    if s != [] && AllDigits(s) then Some(DigitsValue(s)) else None
  }

  /** int(f"{n}") == n */
  lemma {:induction false} ParseNatToString(n: nat)
    ensures ParseNat(NatToString(n)) == Some(n)
  {
    DigitsValueToString(n);
  }

  lemma {:induction false} DigitsValueToString(n: nat)
    ensures DigitsValue(NatToString(n)) == n
  {
    var s := NatToString(n);
    if n < 10 {
      assert s[..|s| - 1] == [];
    } else {
      assert s[..|s| - 1] == NatToString(n / 10);
      DigitsValueToString(n / 10);
    }
  }
}
