// Vocabulary shared by every part of the model.
module Common {

  datatype Option<+T> = None | Some(value: T) {
    function GetOr(default: T): T {
      if Some? then value else default
    }
  }

  datatype Result<+T, +E> = Ok(value: T) | Err(error: E)

  // Instants and durations are whole microseconds, the resolution of the
  // timestamps the program stores.
  type Time = int

  const SECOND := 1_000_000
  const DAY := 86_400 * SECOND

  // n/d rounded to a whole number, ties to the even neighbour.
  function RoundHalfEven(n: int, d: int): (q: int)
    requires d > 0
    ensures 2 * (n % d) < d ==> q == n / d
    ensures 2 * (n % d) > d ==> q == n / d + 1
    ensures 2 * (n % d) == d ==> q % 2 == 0 && n / d <= q <= n / d + 1
  {
    var q, r := n / d, n % d;
    if 2 * r < d || (2 * r == d && q % 2 == 0) then q else q + 1
  }

  // Lexicographic order of strings.
  predicate LexLess(a: string, b: string) {
    b != [] && (a == [] || a[0] < b[0] || (a[0] == b[0] && LexLess(a[1..], b[1..])))
  }

  // After the first n characters, which they share, a ends or has the smaller one.
  ghost predicate DivergesAt(a: string, b: string, n: nat) {
    && n <= |a| && n < |b| && a[..n] == b[..n]
    && (n == |a| || a[n] < b[n])
  }

  lemma {:induction false} LexLessExactly(a: string, b: string)
    ensures LexLess(a, b) <==> exists n: nat :: DivergesAt(a, b, n)
  {
    if a == [] || b == [] || a[0] != b[0] {
      assert b != [] && (a == [] || a[0] < b[0]) ==> DivergesAt(a, b, 0);
    } else {
      LexLessExactly(a[1..], b[1..]);
      if n: nat :| DivergesAt(a[1..], b[1..], n) {
        assert a[..n + 1] == [a[0]] + a[1..][..n] && b[..n + 1] == [b[0]] + b[1..][..n];
        assert DivergesAt(a, b, n + 1);
      }
      if n: nat :| DivergesAt(a, b, n) {
        assert n > 0;
        assert a[1..][..n - 1] == a[..n][1..] && b[1..][..n - 1] == b[..n][1..];
        assert DivergesAt(a[1..], b[1..], n - 1);
      }
    }
  }

  lemma {:induction false} LexAsymmetric(a: string, b: string)
    requires LexLess(a, b)
    ensures !LexLess(b, a)
  {
    if a != [] && a[0] == b[0] {
      LexAsymmetric(a[1..], b[1..]);
    }
  }

  lemma {:induction false} LexNegativelyTransitive(a: string, b: string, c: string)
    requires !LexLess(a, b) && !LexLess(b, c)
    ensures !LexLess(a, c)
  {
    if a != [] && b != [] && c != [] && a[0] == b[0] && b[0] == c[0] {
      LexNegativelyTransitive(a[1..], b[1..], c[1..]);
    }
  }
}
