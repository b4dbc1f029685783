/** Decoded JSON values and the handful of Python operations the integration
    applies to them (truthiness, `in`, `abs`, `str`, `str.lower`).
    Where Python raises, the function returns `None`: callers treat that as
    "processing of this record stops here". */
module Values {

  datatype Option<+T> = None | Some(value: T)

  /** A value produced by `json.loads`. JSON numbers with a fraction or an
      exponent are not modelled. */
  datatype Value =
    | Null
    | Bool(b: bool)
    | Int(i: int)
    | Str(s: string)
    | Arr(items: seq<Value>)
    | Obj(fields: map<string, Value>)

  /** `d.get(key)` */
  function Get(d: map<string, Value>, key: string): Option<Value>
  {
    if key in d then Some(d[key]) else None
  }

  /** `d.get(key, default)` */
  function GetOr(d: map<string, Value>, key: string, default: Value): Value
  {
    if key in d then d[key] else default
  }

  /** Python truthiness (`if v:`). */
  predicate Truthy(v: Value)
  {
    match v
    case Null => false
    case Bool(b) => b
    case Int(i) => i != 0
    case Str(s) => s != ""
    case Arr(items) => items != []
    case Obj(fields) => fields != map[]
  }

  /** The integer a value stands for in Python arithmetic and numeric
      comparison: an int, or a bool as 0/1. `None` where `abs(v)` raises. */
  function Numeric(v: Value): Option<int>
  {
    match v
    case Int(i) => Some(i)
    case Bool(b) => Some(if b then 1 else 0)
    case _ => None
  }

  function Abs(i: int): (r: nat)
    ensures r == i || r == -i
  {
    if i < 0 then -i else i
  }

  /** Values that can be looked up in a Python set (lists and dicts raise). */
  predicate Hashable(v: Value)
  {
    !v.Arr? && !v.Obj?
  }

  // ---------------------------------------------------------------------
  // Strings

  predicate IsPrefix(p: string, s: string)
  {
    |p| <= |s| && s[..|p|] == p
  }

  /** Python's `sub in s` for two strings. */
  predicate Contains(s: string, sub: string)
    decreases |s|
  {
    IsPrefix(sub, s) || (|s| > 0 && Contains(s[1..], sub))
  }

  /** Python's `sub in container` for a string `sub`: substring test on a
      string, membership in a list, key test on a dict; `None` where Python
      raises TypeError. */
  function PyIn(sub: string, container: Value): Option<bool>
  {
    match container
    case Str(s) => Some(Contains(s, sub))
    case Arr(items) => Some(Str(sub) in items)
    case Obj(fields) => Some(sub in fields)
    case _ => None
  }

  function LowerChar(c: char): char
  {
    if 'A' <= c <= 'Z' then (c as int + 32) as char else c
  }

  /** `str.lower()`, restricted to ASCII letters. */
  function Lower(s: string): (r: string)
    ensures |r| == |s|
    ensures forall i :: 0 <= i < |s| ==> r[i] == LowerChar(s[i])
  {
    seq(|s|, i requires 0 <= i < |s| => LowerChar(s[i]))
  }

  function Digit(n: nat): (c: char)
    requires n < 10
    ensures '0' <= c <= '9'
  {
    (48 + n) as char
  }

  function NatText(n: nat): (r: string)
    ensures r != []
    decreases n
  {
    if n < 10 then [Digit(n)] else NatText(n / 10) + [Digit(n % 10)]
  }

  /** `str(v)`. Lists and dicts are rendered as the empty string (their
      Python repr is not modelled). */
  function Text(v: Value): string
  {
    match v
    case Null => "None"
    case Bool(b) => if b then "True" else "False"
    case Int(i) => if i < 0 then "-" + NatText(-i) else NatText(i)
    case Str(s) => s
    case Arr(_) => ""
    case Obj(_) => ""
  }

  // ---------------------------------------------------------------------
  // Facts about substrings

  /** A string contains every string spliced into it. */
  lemma {:induction false} ContainsSplice(pre: string, sub: string, post: string)
    ensures Contains(pre + sub + post, sub)
    decreases |pre|
  {
    var s := pre + sub + post;
    if pre == [] {
      assert s[..|sub|] == sub;
    } else {
      assert s[1..] == pre[1..] + sub + post;
      ContainsSplice(pre[1..], sub, post);
    }
  }

  /** A string that lacks some character of `sub` does not contain `sub`. */
  lemma {:induction false} MissingCharExcludes(s: string, sub: string, k: nat)
    requires k < |sub| && sub[k] !in s
    ensures !Contains(s, sub)
    decreases |s|
  {
    if !IsPrefix(sub, s) && |s| > 0 {
      assert forall c :: c in s[1..] ==> c in s;
      MissingCharExcludes(s[1..], sub, k);
    }
  }

  /** An occurrence of `sub` in `a + b` whose first character is absent from
      `a` lies inside `b`. */
  lemma {:induction false} ContainsPastPrefix(a: string, b: string, sub: string)
    requires Contains(a + b, sub) && |sub| > 0 && sub[0] !in a
    ensures Contains(b, sub)
    decreases |a|
  {
    if a == [] {
      assert a + b == b;
    } else {
      assert (a + b)[0] == a[0];
      assert (a + b)[1..] == a[1..] + b;
      ContainsPastPrefix(a[1..], b, sub);
    }
  }

  /** A number's decimal text starts with a digit. */
  lemma {:induction false} NatTextHead(n: nat)
    ensures '0' <= NatText(n)[0] <= '9'
    decreases n
  {
    if n >= 10 {
      NatTextHead(n / 10);
      assert NatText(n)[0] == NatText(n / 10)[0];
    }
  }

  /** A lower-case word is `str(v)` only for the string `v` itself: `None`,
      `True`, `False`, numbers and the empty rendering all differ from it. */
  lemma TextOfWord(v: Value, w: string)
    requires |w| > 0 && 'a' <= w[0] <= 'z'
    ensures Text(v) == w <==> v == Str(w)
  {
    if v.Int? {
      if v.i < 0 {
        assert Text(v)[0] == '-';
      } else {
        NatTextHead(v.i);
      }
    }
  }
}
