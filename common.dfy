/** Values and string operations of the Python runtime that the scrobbler relies on. */
module Common {

  datatype Option<T> = None | Some(value: T)

  datatype Result<T, E> = Ok(value: T) | Err(error: E) {
    predicate IsFailure() { Err? }
    function PropagateFailure<U>(): Result<U, E> requires Err? { Err(error) }
    function Extract(): T requires Ok? { value }
  }

  /** A dynamically typed Python value as stored in a record or a request parameter. */
  datatype Val = NoneVal | Str(s: string) | Int(i: int)

  predicate IsDigit(c: char) { '0' <= c <= '9' }

  predicate AllDigits(s: string) { forall i :: 0 <= i < |s| ==> IsDigit(s[i]) }

  function DigitChar(d: nat): (c: char)
    requires d < 10
    ensures IsDigit(c) && c as int - '0' as int == d
  {
    (('0' as int) + d) as char
  }

  /** `str(n)` for a non-negative integer. */
  function NatToString(n: nat): (r: string)
    ensures |r| >= 1 && AllDigits(r)
  {
    if n < 10 then [DigitChar(n)] else NatToString(n / 10) + [DigitChar(n % 10)]
  }

  /** `str(i)` for any integer. */
  function IntToString(i: int): string
  {
    if i < 0 then "-" + NatToString(-i) else NatToString(i)
  }

  /** `int(s)` for a string of ASCII digits (leading zeros allowed). */
  function ParseNat(s: string): nat
    requires AllDigits(s)
  {
    if s == [] then 0 else ParseNat(s[..|s| - 1]) * 10 + (s[|s| - 1] as int - '0' as int)
  }

  /** Reading back what `str` wrote gives the number: `int(str(n)) == n`. */
  lemma {:induction false} ParseNatToString(n: nat)
    ensures ParseNat(NatToString(n)) == n
  {
    if n >= 10 {
      var prefix := NatToString(n / 10);
      var r := prefix + [DigitChar(n % 10)];
      assert r[..|r| - 1] == prefix;
      ParseNatToString(n / 10);
    }
  }

  /** Distinct numbers have distinct decimal texts. */
  lemma NatToStringInjective(m: nat, n: nat)
    requires m != n
    ensures NatToString(m) != NatToString(n)
  {
    ParseNatToString(m);
    ParseNatToString(n);
  }

  /** Python's `str(v)` (and `f'{v}'`) for the values the model uses. */
  function Repr(v: Val): string
  {
    match v
    case NoneVal => "None"
    case Str(s) => s
    case Int(i) => IntToString(i)
  }

  /** Python's `repr(v)`, as `str()` of a dict shows its keys and values: a str in single quotes. */
  function Quoted(v: Val): string
  {
    match v
    case Str(s) => "'" + s + "'"
    case _ => Repr(v)
  }

  /** `str.upper()` restricted to ASCII letters. */
  function Upper(s: string): (r: string)
    ensures |r| == |s|
    ensures forall i :: 0 <= i < |s| ==> r[i] == (if 'a' <= s[i] <= 'z' then (s[i] as int - 32) as char else s[i])
  {
    if s == [] then [] else [if 'a' <= s[0] <= 'z' then (s[0] as int - 32) as char else s[0]] + Upper(s[1..])
  }

  /** `s.split(c)` for a one-character separator: never empty, `"".split(c) == [""]`. */
  function Split(s: string, c: char): (r: seq<string>)
    ensures |r| >= 1
  {
    if s == [] then [""]
    else if s[0] == c then [""] + Split(s[1..], c)
    else var rest := Split(s[1..], c); [[s[0]] + rest[0]] + rest[1..]
  }

  lemma {:induction false} SplitNoSeparator(s: string, c: char)
    requires c !in s
    ensures Split(s, c) == [s]
  {
    if s != [] {
      assert c !in s[1..] by { assert forall i :: 0 <= i < |s[1..]| ==> s[1..][i] == s[i + 1]; }
      SplitNoSeparator(s[1..], c);
      assert [s[0]] + s[1..] == s;
    }
  }

  /** Splitting at the first separator peels off the text before it. */
  lemma {:induction false} SplitAtFirst(a: string, c: char, b: string)
    requires c !in a
    ensures Split(a + [c] + b, c) == [a] + Split(b, c)
  {
    if a == [] {
      assert (a + [c] + b)[1..] == b;
    } else {
      assert (a + [c] + b)[1..] == a[1..] + [c] + b;
      SplitAtFirst(a[1..], c, b);
      assert [a[0]] + a[1..] == a;
    }
  }

  /** Python's `<=` on str: lexicographic on code points. */
  predicate StrLe(a: string, b: string)
  {
    if a == [] then true
    else if b == [] then false
    else if a[0] != b[0] then a[0] < b[0]
    else StrLe(a[1..], b[1..])
  }

  predicate StrLt(a: string, b: string) { StrLe(a, b) && a != b }

  lemma {:induction false} StrLeReflexive(a: string)
    ensures StrLe(a, a)
  {
    if a != [] { StrLeReflexive(a[1..]); }
  }

  lemma StrLeTotal(a: string, b: string)
    ensures StrLe(a, b) || StrLe(b, a)
  {
  }

  lemma {:induction false} StrLeAntisymmetric(a: string, b: string)
    requires StrLe(a, b) && StrLe(b, a)
    ensures a == b
  {
    if a != [] && b != [] {
      StrLeAntisymmetric(a[1..], b[1..]);
      assert a == [a[0]] + a[1..] && b == [b[0]] + b[1..];
    }
  }

  lemma {:induction false} StrLeTransitive(a: string, b: string, c: string)
    requires StrLe(a, b) && StrLe(b, c)
    ensures StrLe(a, c)
  {
    if a != [] && b != [] && c != [] && a[0] == b[0] && b[0] == c[0] {
      StrLeTransitive(a[1..], b[1..], c[1..]);
    }
  }

  ghost predicate IsLeast(m: string, keys: set<string>)
  {
    m in keys && forall k :: k in keys ==> StrLe(m, k)
  }

  /** Every non-empty finite set of strings has a least element. */
  lemma {:induction false} LeastExists(keys: set<string>)
    requires keys != {}
    ensures exists m :: IsLeast(m, keys)
    decreases |keys|
  {
    var x :| x in keys;
    if keys != {x} {
      var rest := keys - {x};
      LeastExists(rest);
      var m :| IsLeast(m, rest);
      StrLeTotal(x, m);
      if StrLe(x, m) {
        forall k | k in keys ensures StrLe(x, k) {
          if k != x { StrLeTransitive(x, m, k); } else { StrLeReflexive(x); }
        }
        assert IsLeast(x, keys);
      } else {
        assert IsLeast(m, keys);
      }
    } else {
      StrLeReflexive(x);
      assert IsLeast(x, keys);
    }
  }

  lemma LeastUnique(m: string, n: string, keys: set<string>)
    requires IsLeast(m, keys) && IsLeast(n, keys)
    ensures m == n
  {
    StrLeAntisymmetric(m, n);
  }

  /** `sorted(keys)`: the strings of a set in ascending order. */
  ghost function Sorted(keys: set<string>): (r: seq<string>)
    ensures |r| == |keys|
    ensures forall k :: k in keys <==> k in r
    decreases |keys|
  {
    if keys == {} then []
    else
      LeastExists(keys);
      var m :| IsLeast(m, keys);
      var rest := Sorted(keys - {m});
      assert forall j :: 0 <= j < |rest| ==> rest[j] in keys - {m};
      [m] + rest
  }

  /** `sorted` on a set starts with its least element, followed by the sorted rest. */
  lemma SortedFirst(keys: set<string>, m: string)
    requires IsLeast(m, keys)
    ensures Sorted(keys) == [m] + Sorted(keys - {m})
  {
    var r := Sorted(keys);
    assert IsLeast(r[0], keys) && r == [r[0]] + Sorted(keys - {r[0]});
    LeastUnique(r[0], m, keys);
  }

  /** `sorted` lists the set strictly ascending. */
  lemma {:induction false} SortedAscending(keys: set<string>)
    ensures var r := Sorted(keys);
      forall i, j :: 0 <= i < j < |r| ==> StrLt(r[i], r[j])
    decreases |keys|
  {
    if keys != {} {
      LeastExists(keys);
      var m :| IsLeast(m, keys);
      SortedFirst(keys, m);
      SortedAscending(keys - {m});
      ConsAscending(m, keys, Sorted(keys - {m}));
    }
  }

  /** The least element followed by the others in strictly ascending order is strictly ascending. */
  lemma ConsAscending(m: string, keys: set<string>, rest: seq<string>)
    requires IsLeast(m, keys)
    requires forall x :: x in rest ==> x in keys - {m}
    requires forall i, j :: 0 <= i < j < |rest| ==> StrLt(rest[i], rest[j])
    ensures var r := [m] + rest;
      forall i, j :: 0 <= i < j < |r| ==> StrLt(r[i], r[j])
  {
    var r := [m] + rest;
    forall i, j | 0 <= i < j < |r|
      ensures StrLt(r[i], r[j])
    {
      assert r[j] == rest[j - 1] && r[j] in keys - {m};
      if i > 0 {
        assert r[i] == rest[i - 1];
      }
    }
  }
}
