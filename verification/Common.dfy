/**
 Small vocabulary shared by the models: optional values, results, duplicate-free
 sequences and sums over finite sets.
 */
module Common {

  datatype Option<+T> = None | Some(value: T)

  datatype Result<+T, +E> = Ok(value: T) | Err(error: E)

  /** Integer division that truncates toward zero. */
  function TruncDiv(a: int, b: int): int
    requires 0 < b
  {
    if 0 <= a then a / b else -((-a) / b)
  }

  /** What an int32 holds after arithmetic gave n. */
  function Wrap32(n: int): (r: int)
    ensures -0x8000_0000 <= r < 0x8000_0000
    ensures -0x8000_0000 <= n < 0x8000_0000 ==> r == n
  {
    (n + 0x8000_0000) % 0x1_0000_0000 - 0x8000_0000
  }

  /** What an int64 holds after arithmetic gave n. */
  function Wrap64(n: int): (r: int)
    ensures -0x8000_0000_0000_0000 <= r < 0x8000_0000_0000_0000
    ensures -0x8000_0000_0000_0000 <= n < 0x8000_0000_0000_0000 ==> r == n
  {
    (n + 0x8000_0000_0000_0000) % 0x1_0000_0000_0000_0000 - 0x8000_0000_0000_0000
  }

  lemma MulAtLeast(b: int, x: int)
    requires 0 < b && 1 <= x
    ensures b * x >= b
  {
  }

  lemma DivUnique(a: int, b: int, q: int, r: int)
    requires 0 < b && a == b * q + r && 0 <= r < b
    ensures a / b == q
  {
    var k := a / b;
    assert a == b * k + a % b;
    assert b * (k - q) == b * k - b * q;
    assert b * (q - k) == b * q - b * k;
    if k > q {
      MulAtLeast(b, k - q);
    } else if k < q {
      MulAtLeast(b, q - k);
    }
  }

  /** What holds of 0 and passes from each number to the next holds of all. */
  lemma {:induction false} CountUp(p: nat -> bool, n: nat)
    requires p(0) && forall k: nat :: p(k) ==> p(k + 1)
    ensures p(n)
  {
    if n > 0 {
      CountUp(p, n - 1);
      assert p(n - 1 + 1);
    }
  }

  ghost predicate Distinct<T>(s: seq<T>) {
    forall i, j :: 0 <= i < j < |s| ==> s[i] != s[j]
  }

  function Elements<T>(s: seq<T>): set<T> {
    set x | x in s
  }

  /** An order in which a Go map may be walked: every key once, in any order. */
  ghost predicate WalkOf<T>(order: seq<T>, keys: set<T>) {
    Distinct(order) && Elements(order) == keys
  }

  lemma {:induction false} WalkLength<T>(order: seq<T>, keys: set<T>)
    requires WalkOf(order, keys)
    ensures |order| == |keys|
  {
    if order == [] {
      assert keys == {};
    } else {
      var x, rest := order[0], order[1..];
      assert Elements(rest) == keys - {x} by {
        forall y | y in keys - {x} ensures y in rest {
          var i :| 0 <= i < |order| && order[i] == y;
          assert rest[i - 1] == y;
        }
      }
      WalkLength(rest, keys - {x});
    }
  }

  lemma {:induction false} WalkExists<T>(keys: set<T>) returns (order: seq<T>)
    ensures WalkOf(order, keys)
    decreases |keys|
  {
    if keys == {} {
      order := [];
    } else {
      var k :| k in keys;
      var rest := WalkExists(keys - {k});
      order := [k] + rest;
      assert k !in Elements(rest);
      assert forall x :: x in order <==> x == k || x in Elements(rest);
    }
  }

  /** The sum of f over a finite set; no order is involved. */
  ghost function SumOver<T(!new)>(s: set<T>, f: T -> int): int {
    if s == {} then 0 else
      var x :| x in s;
      f(x) + SumOver(s - {x}, f)
  }

  lemma {:induction false} SumOverRemove<T(!new)>(s: set<T>, f: T -> int, x: T)
    requires x in s
    ensures SumOver(s, f) == f(x) + SumOver(s - {x}, f)
    decreases |s|
  {
    var y :| y in s && SumOver(s, f) == f(y) + SumOver(s - {y}, f);
    if y != x {
      SumOverRemove(s - {y}, f, x);
      SumOverRemove(s - {x}, f, y);
      assert s - {y} - {x} == s - {x} - {y};
    }
  }

  lemma SumOverAdd<T(!new)>(s: set<T>, f: T -> int, x: T)
    requires x !in s
    ensures SumOver(s + {x}, f) == SumOver(s, f) + f(x)
  {
    SumOverRemove(s + {x}, f, x);
    assert s + {x} - {x} == s;
  }

  lemma {:induction false} SumOverAgree<T(!new)>(s: set<T>, f: T -> int, g: T -> int)
    requires forall x :: x in s ==> f(x) == g(x)
    ensures SumOver(s, f) == SumOver(s, g)
    decreases |s|
  {
    if s != {} {
      var x :| x in s;
      SumOverRemove(s, f, x);
      SumOverRemove(s, g, x);
      SumOverAgree(s - {x}, f, g);
    }
  }

  // ---- Strings -------------------------------------------------------------

  /** Lower-casing, for ASCII letters. */
  function LowerChar(c: char): char {
    if 'A' <= c <= 'Z' then (c as int + 32) as char else c
  }

  function ToLower(s: string): (r: string)
    ensures |r| == |s| && forall i :: 0 <= i < |s| ==> r[i] == LowerChar(s[i])
  {
    seq(|s|, i requires 0 <= i < |s| => LowerChar(s[i]))
  }

  function FirstOf(s: string, sep: char): (i: nat)
    requires sep in s
    ensures i < |s| && s[i] == sep && forall j :: 0 <= j < i ==> s[j] != sep
  {
    if s[0] == sep then 0 else
      assert s == [s[0]] + s[1..];
      FirstOf(s[1..], sep) + 1
  }

  /** `strings.Split` at a one-character separator. */
  function Split(s: string, sep: char): (r: seq<string>)
    ensures 1 <= |r|
    ensures forall i :: 0 <= i < |r| ==> sep !in r[i]
  {
    if sep !in s then [s] else
      var i := FirstOf(s, sep);
      [s[..i]] + Split(s[i + 1..], sep)
  }

  function Join(pieces: seq<string>, sep: char): string
    requires 1 <= |pieces|
  {
    if |pieces| == 1 then pieces[0] else pieces[0] + [sep] + Join(pieces[1..], sep)
  }

  /** Joined again, the pieces are the string that was split. */
  lemma {:induction false} JoinUndoesSplit(s: string, sep: char)
    ensures Join(Split(s, sep), sep) == s
  {
    if sep in s {
      var i := FirstOf(s, sep);
      JoinUndoesSplit(s[i + 1..], sep);
      assert Split(s, sep)[1..] == Split(s[i + 1..], sep);
      assert s == s[..i] + [sep] + s[i + 1..];
    }
  }
}
