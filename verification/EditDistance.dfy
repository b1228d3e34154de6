/** Error rates of the OCR evaluation (backend/scripts/ocr_eval.py).

    An edit script is executed from the front of the reference. `Entry` is the recurrence that
    the two-row loop tabulates over prefixes. The main results are that the loop returns the
    least cost of any script, and that this cost is a metric.
  */
module EditDistance {
  import opened Common

  datatype Edit<T> = Keep | Substitute(to: T) | Insert(item: T) | Delete

  /** What a script makes of `a`, reading both from the front; None if it does not fit `a`. */
  function Run<T>(script: seq<Edit<T>>, a: seq<T>): Option<seq<T>>
    decreases |script|
  {
    if script == [] then
      if a == [] then Some([]) else None
    else
      var rest := script[1..];
      match script[0]
      case Insert(y) => Prefixed([y], Run(rest, a))
      case Keep => if a == [] then None else Prefixed([a[0]], Run(rest, a[1..]))
      case Substitute(y) => if a == [] then None else Prefixed([y], Run(rest, a[1..]))
      case Delete => if a == [] then None else Run(rest, a[1..])
  }

  function Prefixed<T>(p: seq<T>, r: Option<seq<T>>): Option<seq<T>> {
    match r
    case None => None
    case Some(s) => Some(p + s)
  }

  /** Every edit except keeping an item costs one. */
  function Cost<T>(script: seq<Edit<T>>): nat {
    if script == [] then 0 else (if script[0].Keep? then 0 else 1) + Cost(script[1..])
  }

  ghost predicate IsLeastCost<T(!new)>(d: nat, a: seq<T>, b: seq<T>) {
    && (exists script :: Run(script, a) == Some(b) && Cost(script) == d)
    && (forall script :: Run(script, a) == Some(b) ==> d <= Cost(script))
  }

  function Least(x: int, y: int, z: int): int {
    if x <= y && x <= z then x else if y <= z then y else z
  }

  function Differ<T(==)>(x: T, y: T): nat { if x == y then 0 else 1 }

  /** Entry (i, j) of the table: the distance of the prefixes of lengths i and j. */
  function Entry<T(==)>(a: seq<T>, i: nat, b: seq<T>, j: nat): nat
    requires i <= |a| && j <= |b|
    decreases i + j
  {
    if i == 0 then j
    else if j == 0 then i
    else
      Least(Entry(a, i - 1, b, j) + 1, Entry(a, i, b, j - 1) + 1,
            Entry(a, i - 1, b, j - 1) + Differ(a[i - 1], b[j - 1]))
  }

  function Distance<T(==)>(a: seq<T>, b: seq<T>): nat {
    Entry(a, |a|, b, |b|)
  }

  // ---------------------------------------------------------------- the recurrence read from the front

  /** `xa` is `a` with one item put before it. */
  ghost predicate Extends<T>(xa: seq<T>, a: seq<T>) {
    |xa| == |a| + 1 && forall k :: 0 <= k < |a| ==> xa[k + 1] == a[k]
  }

  /** The second entry exceeds the first by at most `slack`. */
  ghost predicate Within<T>(a: seq<T>, i: nat, b: seq<T>, j: nat, a': seq<T>, i': nat, b': seq<T>, j': nat, slack: nat)
    requires i <= |a| && j <= |b| && i' <= |a'| && j' <= |b'|
  {
    Entry(a', i', b', j') <= Entry(a, i, b, j) + slack
  }

  lemma {:induction false} DeleteFront<T>(xa: seq<T>, a: seq<T>, i: nat, b: seq<T>, j: nat)
    requires Extends(xa, a) && i <= |a| && j <= |b|
    ensures Within(a, i, b, j, xa, i + 1, b, j, 1)
    decreases i + j
  {
    if i != 0 && j != 0 {
      DeleteFront(xa, a, i - 1, b, j);
      DeleteFront(xa, a, i, b, j - 1);
      DeleteFront(xa, a, i - 1, b, j - 1);
      assert xa[i] == a[i - 1];
    } else if j != 0 {
      assert Entry(xa, 0, b, j) == j;
    }
  }

  lemma {:induction false} Symmetric<T>(a: seq<T>, i: nat, b: seq<T>, j: nat)
    requires i <= |a| && j <= |b|
    ensures Within(a, i, b, j, b, j, a, i, 0)
    decreases i + j
  {
    if i != 0 && j != 0 {
      Symmetric(a, i - 1, b, j);
      Symmetric(a, i, b, j - 1);
      Symmetric(a, i - 1, b, j - 1);
    }
  }

  lemma {:induction false} ReplaceFront<T>(xa: seq<T>, a: seq<T>, i: nat, yb: seq<T>, b: seq<T>, j: nat)
    requires Extends(xa, a) && Extends(yb, b) && i <= |a| && j <= |b|
    ensures Within(a, i, b, j, xa, i + 1, yb, j + 1, Differ(xa[0], yb[0]))
    decreases i + j
  {
    if i == 0 && j == 0 {
    } else if i == 0 {
      ReplaceFront(xa, a, i, yb, b, j - 1);
    } else if j == 0 {
      ReplaceFront(xa, a, i - 1, yb, b, j);
    } else {
      assert xa[i] == a[i - 1] && yb[j] == b[j - 1];
      ReplaceFront(xa, a, i - 1, yb, b, j);
      ReplaceFront(xa, a, i, yb, b, j - 1);
      ReplaceFront(xa, a, i - 1, yb, b, j - 1);
    }
  }

  // ---------------------------------------------------------------- least cost

  /** No script is cheaper than the recurrence. */
  lemma {:induction false} NoScriptIsCheaper<T>(script: seq<Edit<T>>, a: seq<T>, b: seq<T>)
    requires Run(script, a) == Some(b)
    ensures Distance(a, b) <= Cost(script)
    decreases |script|
  {
    if script == [] {
    } else {
      var rest := script[1..];
      match script[0]
      case Insert(y) =>
        NoScriptIsCheaper(rest, a, b[1..]);
        Symmetric(a, |a|, b[1..], |b| - 1);
        DeleteFront(b, b[1..], |b| - 1, a, |a|);
        Symmetric(b, |b|, a, |a|);
      case Delete =>
        NoScriptIsCheaper(rest, a[1..], b);
        DeleteFront(a, a[1..], |a| - 1, b, |b|);
      case _ =>
        NoScriptIsCheaper(rest, a[1..], b[1..]);
        ReplaceFront(a, a[1..], |a| - 1, b, b[1..], |b| - 1);
    }
  }

  lemma SingleEdits<T>(x: T, y: T)
    ensures Run([Delete], [x]) == Some([]) && Run([Keep], [x]) == Some([x])
    ensures Run([Insert(y)], []) == Some([y]) && Run([Substitute(y)], [x]) == Some([y])
  {
    var scripts: seq<Edit<T>> := [Delete, Keep, Insert(y), Substitute(y)];
    assert forall k :: 0 <= k < 4 ==> [scripts[k]][1..] == [];
    assert [x][1..] == [] && Run<T>([], []) == Some([]);
    assert [x] + [] == [x] && [y] + [] == [y];
  }

  lemma {:induction false} RunAppend<T>(s: seq<Edit<T>>, e: Edit<T>, a: seq<T>, x: seq<T>, b: seq<T>, y: seq<T>)
    requires Run(s, a) == Some(b) && Run([e], x) == Some(y)
    ensures Run(s + [e], a + x) == Some(b + y)
    ensures Cost(s + [e]) == Cost(s) + Cost([e])
    decreases |s|
  {
    if s == [] {
      assert s + [e] == [e] && a + x == x && b + y == y;
    } else {
      assert (s + [e])[0] == s[0] && (s + [e])[1..] == s[1..] + [e];
      if s[0].Insert? {
        RunAppend(s[1..], e, a, x, b[1..], y);
        assert [s[0].item] + (b[1..] + y) == b + y;
      } else {
        assert (a + x)[0] == a[0] && (a + x)[1..] == a[1..] + x;
        if s[0].Delete? {
          RunAppend(s[1..], e, a[1..], x, b, y);
        } else {
          RunAppend(s[1..], e, a[1..], x, b[1..], y);
          assert [b[0]] + (b[1..] + y) == b + y;
        }
      }
    }
  }

  /** A script that attains the recurrence. */
  lemma {:induction false} BestScript<T>(a: seq<T>, i: nat, b: seq<T>, j: nat) returns (script: seq<Edit<T>>)
    requires i <= |a| && j <= |b|
    ensures Run(script, a[..i]) == Some(b[..j]) && Cost(script) == Entry(a, i, b, j)
    decreases i + j
  {
    if i == 0 && j == 0 {
      script := [];
    } else {
      assert i != 0 ==> a[..i] == a[..i - 1] + [a[i - 1]];
      assert j != 0 ==> b[..j] == b[..j - 1] + [b[j - 1]];
      assert a[..i] + [] == a[..i] && b[..j] + [] == b[..j];
      if i != 0 && (j == 0 || Entry(a, i, b, j) == Entry(a, i - 1, b, j) + 1) {
        script := BestScript(a, i - 1, b, j);
        SingleEdits(a[i - 1], a[i - 1]);
        RunAppend(script, Delete, a[..i - 1], [a[i - 1]], b[..j], []);
        script := script + [Delete];
      } else if i == 0 || Entry(a, i, b, j) == Entry(a, i, b, j - 1) + 1 {
        script := BestScript(a, i, b, j - 1);
        SingleEdits(b[j - 1], b[j - 1]);
        RunAppend(script, Insert(b[j - 1]), a[..i], [], b[..j - 1], [b[j - 1]]);
        script := script + [Insert(b[j - 1])];
      } else {
        var x, y := a[i - 1], b[j - 1];
        var e := if x == y then Keep else Substitute(y);
        script := BestScript(a, i - 1, b, j - 1);
        SingleEdits(x, y);
        RunAppend(script, e, a[..i - 1], [x], b[..j - 1], [y]);
        script := script + [e];
      }
    }
  }

  lemma DistanceIsLeastCost<T(!new)>(a: seq<T>, b: seq<T>)
    ensures IsLeastCost(Distance(a, b), a, b)
  {
    var best := BestScript(a, |a|, b, |b|);
    assert a[..|a|] == a && b[..|b|] == b;
    forall script | Run(script, a) == Some(b)
      ensures Distance(a, b) <= Cost(script)
    {
      NoScriptIsCheaper(script, a, b);
    }
  }

  // ---------------------------------------------------------------- metric laws

  predicate Bounded(d: int, i: nat, j: nat) {
    i <= j + d && j <= i + d && d <= Max(i, j)
  }

  lemma {:induction false} EntryBounds<T>(a: seq<T>, i: nat, b: seq<T>, j: nat)
    requires i <= |a| && j <= |b|
    ensures Bounded(Entry(a, i, b, j), i, j)
    decreases i + j
  {
    if i != 0 && j != 0 {
      EntryBounds(a, i - 1, b, j);
      EntryBounds(a, i, b, j - 1);
      EntryBounds(a, i - 1, b, j - 1);
    }
  }

  lemma {:induction false} EntryZero<T>(a: seq<T>, i: nat, b: seq<T>, j: nat)
    requires i <= |a| && j <= |b|
    ensures Entry(a, i, b, j) == 0 <==> a[..i] == b[..j]
    decreases i + j
  {
    if i != 0 && j != 0 {
      EntryZero(a, i - 1, b, j - 1);
      assert a[..i] == a[..i - 1] + [a[i - 1]];
      assert b[..j] == b[..j - 1] + [b[j - 1]];
    }
  }

  ghost predicate NoShorterThrough<T>(a: seq<T>, i: nat, b: seq<T>, j: nat, c: seq<T>, k: nat)
    requires i <= |a| && j <= |b| && k <= |c|
  {
    Entry(a, i, c, k) <= Entry(a, i, b, j) + Entry(b, j, c, k)
  }

  lemma {:induction false} EntryTriangle<T>(a: seq<T>, i: nat, b: seq<T>, j: nat, c: seq<T>, k: nat)
    requires i <= |a| && j <= |b| && k <= |c|
    ensures NoShorterThrough(a, i, b, j, c, k)
    decreases i + j + k
  {
    if i == 0 || j == 0 || k == 0 {
      EntryBounds(a, i, b, j);
      EntryBounds(b, j, c, k);
      EntryBounds(a, i, c, k);
    } else {
      var ab, bc := Entry(a, i, b, j), Entry(b, j, c, k);
      if ab == Entry(a, i - 1, b, j) + 1 {
        EntryTriangle(a, i - 1, b, j, c, k);
      } else if bc == Entry(b, j, c, k - 1) + 1 {
        EntryTriangle(a, i, b, j, c, k - 1);
      } else if bc == Entry(b, j - 1, c, k) + 1 {
        if ab == Entry(a, i, b, j - 1) + 1 {
          EntryTriangle(a, i, b, j - 1, c, k);
        } else {
          EntryTriangle(a, i - 1, b, j - 1, c, k);
        }
      } else if ab == Entry(a, i, b, j - 1) + 1 {
        EntryTriangle(a, i, b, j - 1, c, k - 1);
      } else {
        EntryTriangle(a, i - 1, b, j - 1, c, k - 1);
      }
    }
  }

  /** The distance is a metric, and lies between the length difference and the larger length. */
  lemma DistanceIsMetric<T>(a: seq<T>, b: seq<T>, c: seq<T>)
    ensures Distance(a, b) == 0 <==> a == b
    ensures Distance(a, b) == Distance(b, a)
    ensures Distance(a, c) <= Distance(a, b) + Distance(b, c)
    ensures |a| - |b| <= Distance(a, b) && |b| - |a| <= Distance(a, b) <= Max(|a|, |b|)
  {
    EntryZero(a, |a|, b, |b|);
    assert a[..|a|] == a && b[..|b|] == b;
    Symmetric(a, |a|, b, |b|);
    Symmetric(b, |b|, a, |a|);
    EntryTriangle(a, |a|, b, |b|, c, |c|);
    EntryBounds(a, |a|, b, |b|);
  }

  // ---------------------------------------------------------------- the two-row loop

  /** The first |row| entries of row i of the table. */
  ghost predicate IsRow<T>(row: seq<int>, a: seq<T>, i: nat, b: seq<T>) {
    i <= |a| && |row| <= |b| + 1 && forall j :: 0 <= j < |row| ==> row[j] == Entry(a, i, b, j)
  }

  method LeastEdits<T(==,!new)>(a: seq<T>, b: seq<T>) returns (d: nat)
    ensures d == Distance(a, b)
    ensures IsLeastCost(d, a, b)
  {
    var previous: seq<int> := seq(|b| + 1, j => j);
    for i := 0 to |a|
      invariant |previous| == |b| + 1 && IsRow(previous, a, i, b)
    {
      var current: seq<int> := [i + 1];
      for j := 0 to |b|
        invariant |current| == j + 1 && IsRow(current, a, i + 1, b)
      {
        current := current + [Least(previous[j + 1] + 1, current[j] + 1, previous[j] + Differ(a[i], b[j]))];
      }
      previous := current;
    }
    DistanceIsLeastCost(a, b);
    d := previous[|previous| - 1];
  }

  // ---------------------------------------------------------------- error rates

  /** Edits per item of the reference; an empty reference counts as one item. */
  function Rate<T(==)>(reference: seq<T>, hypothesis: seq<T>): real {
    Distance(reference, hypothesis) as real / Max(1, |reference|) as real
  }

  lemma QuotientBounds(n: nat, d: nat)
    requires 0 < d
    ensures var q := n as real / d as real;
            0.0 <= q && (q == 0.0 <==> n == 0) && (q <= 1.0 <==> n <= d) && (q == 1.0 <==> n == d)
  {
    var q := n as real / d as real;
    assert q * d as real == n as real;
    if n == d { assert (q - 1.0) * d as real == 0.0; }
    if n < d { assert (q - 1.0) * d as real < 0.0; }
    if n > d { assert (q - 1.0) * d as real > 0.0; }
  }

  /** A rate is zero exactly on a perfect reading, and can exceed one only when the hypothesis is longer. */
  lemma RateBounds<T>(reference: seq<T>, hypothesis: seq<T>)
    ensures 0.0 <= Rate(reference, hypothesis)
    ensures Rate(reference, hypothesis) == 0.0 <==> reference == hypothesis
    ensures |hypothesis| <= Max(1, |reference|) ==> Rate(reference, hypothesis) <= 1.0
    ensures reference != [] && hypothesis == [] ==> Rate(reference, hypothesis) == 1.0
  {
    DistanceIsMetric(reference, hypothesis, reference);
    QuotientBounds(Distance(reference, hypothesis), Max(1, |reference|));
  }

  /** cer over characters and wer over words. */
  method ErrorRate<T(==,!new)>(reference: seq<T>, hypothesis: seq<T>) returns (rate: real)
    ensures rate == Rate(reference, hypothesis)
  {
    var d := LeastEdits(reference, hypothesis);
    rate := d as real / Max(1, |reference|) as real;
  }
}
