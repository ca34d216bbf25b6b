/** The edit distance behind the command suggestions: the one-row algorithm, the recursive distance it
    computes, and what that distance means. */
module EditDistance {

  function Min(x: nat, y: nat): nat {
    if x <= y then x else y
  }

  function Front(s: string): string
    requires s != []
  {
    s[..|s| - 1]
  }

  function Cost(a: string, b: string): nat
    requires a != [] && b != []
  {
    if a[|a| - 1] == b[|b| - 1] then 0 else 1
  }

  /** Levenshtein's recurrence on the last characters. */
  function Distance(a: string, b: string): nat
    decreases |a| + |b|
  {
    if a == [] then |b|
    else if b == [] then |a|
    else Min(Min(Distance(Front(a), Front(b)) + Cost(a, b), Distance(Front(a), b) + 1), Distance(a, Front(b)) + 1)
  }

  /** The distance of two prefixes: one cell of the table the algorithm sweeps over. */
  function Cell(a: string, b: string, i: nat, j: nat): nat
    requires i <= |a| && j <= |b|
  {
    Distance(a[..i], b[..j])
  }

  lemma CellEdges(a: string, b: string)
    ensures forall j :: 0 <= j <= |b| ==> Cell(a, b, 0, j) == j
    ensures forall i :: 0 <= i <= |a| ==> Cell(a, b, i, 0) == i
    ensures Cell(a, b, |a|, |b|) == Distance(a, b)
  {
    assert a[..|a|] == a && b[..|b|] == b;
  }

  lemma CellRecurrence(a: string, b: string, i: nat, j: nat)
    requires 0 < i <= |a| && 0 < j <= |b|
    ensures Cell(a, b, i, j) ==
            Min(Min(Cell(a, b, i - 1, j - 1) + (if a[i - 1] != b[j - 1] then 1 else 0), Cell(a, b, i - 1, j) + 1),
                Cell(a, b, i, j - 1) + 1)
  {
    assert Front(a[..i]) == a[..i - 1] && Front(b[..j]) == b[..j - 1];
  }

  /** The algorithm: one row, overwritten in place, with the diagonal value carried in `prev`. */
  method Levenshtein(a: string, b: string) returns (d: nat)
    ensures d == Distance(a, b)
  {
    hide Distance, Cell;
    CellEdges(a, b);
    var row := new nat[|b| + 1](j => j);
    for i := 1 to |a| + 1
      invariant forall k :: 0 <= k <= |b| ==> row[k] == Cell(a, b, i - 1, k)
    {
      var prev := row[0];
      row[0] := i;
      for j := 1 to |b| + 1
        invariant prev == Cell(a, b, i - 1, j - 1)
        invariant forall k :: 0 <= k < j ==> row[k] == Cell(a, b, i, k)
        invariant forall k :: j <= k <= |b| ==> row[k] == Cell(a, b, i - 1, k)
      {
        var above := row[j];
        var cost := if a[i - 1] != b[j - 1] then 1 else 0;
        CellRecurrence(a, b, i, j);
        row[j] := Min(Min(prev + cost, row[j] + 1), row[j - 1] + 1);
        prev := above;
      }
    }
    d := row[|b|];
  }

  // ---------- a metric ----------

  /** The distance lies between the difference of the lengths and the longer length. */
  lemma {:induction false} DistanceBounds(a: string, b: string)
    ensures |a| - |b| <= Distance(a, b) && |b| - |a| <= Distance(a, b)
    ensures Distance(a, b) <= |a| || Distance(a, b) <= |b|
    decreases |a| + |b|
  {
    if a != [] && b != [] {
      DistanceBounds(Front(a), Front(b));
      DistanceBounds(Front(a), b);
      DistanceBounds(a, Front(b));
    }
  }

  lemma {:induction false} DistanceZeroIff(a: string, b: string)
    ensures Distance(a, b) == 0 <==> a == b
    decreases |a| + |b|
  {
    if a != [] && b != [] {
      DistanceZeroIff(Front(a), Front(b));
      assert a == Front(a) + [a[|a| - 1]] && b == Front(b) + [b[|b| - 1]];
    }
  }

  lemma {:induction false} DistanceSymmetric(a: string, b: string)
    ensures Distance(a, b) == Distance(b, a)
    decreases |a| + |b|
  {
    if a != [] && b != [] {
      DistanceSymmetric(Front(a), Front(b));
      DistanceSymmetric(Front(a), b);
      DistanceSymmetric(a, Front(b));
    }
  }

  lemma {:induction false} DistanceTriangle(a: string, b: string, c: string)
    ensures Distance(a, c) <= Distance(a, b) + Distance(b, c)
    decreases |a| + |b| + |c|
  {
    if a == [] || b == [] || c == [] {
      DistanceBounds(a, b);
      DistanceBounds(b, c);
      DistanceBounds(a, c);
    } else {
      DistanceTriangle(Front(a), b, c);
      DistanceTriangle(a, b, Front(c));
      DistanceTriangle(a, Front(b), c);
      DistanceTriangle(a, Front(b), Front(c));
      DistanceTriangle(Front(a), Front(b), c);
      DistanceTriangle(Front(a), Front(b), Front(c));
    }
  }

  // ---------- the meaning: the fewest single-character edits ----------

  /** At most one character is replaced by at most one other. */
  ghost predicate Edit(s: string, t: string) {
    exists p: string, x: string, y: string, q: string ::
      |x| <= 1 && |y| <= 1 && s == p + x + q && t == p + y + q
  }

  ghost predicate EditChain(chain: seq<string>, a: string, b: string) {
    && chain != [] && chain[0] == a && chain[|chain| - 1] == b
    && forall i :: 0 <= i < |chain| - 1 ==> Edit(chain[i], chain[i + 1])
  }

  lemma DistanceExtends(s: string, t: string, c: char)
    ensures Distance(s + [c], t + [c]) <= Distance(s, t)
    ensures Distance(s + [c], t) <= Distance(s, t) + 1
    ensures Distance(s, t + [c]) <= Distance(s, t) + 1
  {
    assert Front(s + [c]) == s && Front(t + [c]) == t;
  }

  lemma {:induction false} DistanceOfSuffix(s: string, t: string, q: string)
    ensures Distance(s + q, t + q) <= Distance(s, t)
    decreases |q|
  {
    if q == [] {
      assert s + q == s && t + q == t;
    } else {
      assert s + q == (s + [q[0]]) + q[1..] && t + q == (t + [q[0]]) + q[1..];
      DistanceExtends(s, t, q[0]);
      DistanceOfSuffix(s + [q[0]], t + [q[0]], q[1..]);
    }
  }

  lemma LastEditIsClose(p: string, x: string, y: string)
    requires |x| <= 1 && |y| <= 1
    ensures Distance(p + x, p + y) <= 1
  {
    hide Distance;
    DistanceZeroIff(p, p);
    if x != [] {
      assert p + x == p + [x[0]];
      DistanceExtends(p, p, x[0]);
    } else {
      assert p + x == p;
    }
    if y != [] {
      assert p + y == p + [y[0]];
      DistanceExtends(p, p, y[0]);
      if x != [] {
        Substitution(p, x[0], y[0]);
      }
    } else {
      assert p + y == p;
    }
  }

  lemma Substitution(p: string, c: char, d: char)
    ensures Distance(p + [c], p + [d]) <= Distance(p, p) + 1
  {
  }

  /** One edit is at most one away. */
  lemma EditIsClose(s: string, t: string)
    requires Edit(s, t)
    ensures Distance(s, t) <= 1
  {
    hide Distance;
    var p: string, x: string, y: string, q: string :|
      |x| <= 1 && |y| <= 1 && s == p + x + q && t == p + y + q;
    DistanceOfSuffix(p + x, p + y, q);
    LastEditIsClose(p, x, y);
  }

  /** No chain of edits is shorter than the distance ... */
  lemma {:induction false} ChainsAreLong(chain: seq<string>, a: string, b: string)
    requires EditChain(chain, a, b)
    ensures |chain| - 1 >= Distance(a, b)
    decreases |chain|
  {
    if |chain| == 1 {
      DistanceZeroIff(a, b);
    } else {
      var n := |chain| - 1;
      assert EditChain(chain[..n], a, chain[n - 1]);
      ChainsAreLong(chain[..n], a, chain[n - 1]);
      assert Edit(chain[n - 1], chain[n - 1 + 1]);
      EditIsClose(chain[n - 1], b);
      DistanceTriangle(a, chain[n - 1], b);
    }
  }

  lemma EditLast(p: string, x: string, y: string)
    requires |x| <= 1 && |y| <= 1
    ensures Edit(p + x, p + y)
  {
    assert p + x + [] == p + x && p + y + [] == p + y;
  }

  lemma Regroup(p: string, x: string, q: string, c: char)
    ensures p + x + q + [c] == p + x + (q + [c])
  {
  }

  lemma EditExtends(s: string, t: string, c: char)
    requires Edit(s, t)
    ensures Edit(s + [c], t + [c])
  {
    var p: string, x: string, y: string, q: string :|
      |x| <= 1 && |y| <= 1 && s == p + x + q && t == p + y + q;
    Regroup(p, x, q, c);
    Regroup(p, y, q, c);
  }

  lemma ChainOfOne(a: string)
    ensures EditChain([a], a, a)
  {
  }

  lemma ChainThen(chain: seq<string>, a: string, b: string, c: string)
    requires EditChain(chain, a, b) && Edit(b, c)
    ensures EditChain(chain + [c], a, c)
  {
    hide Edit;
    var longer := chain + [c];
    forall i | 0 <= i < |longer| - 1 ensures Edit(longer[i], longer[i + 1]) {
      if i < |chain| - 1 {
        assert Edit(chain[i], chain[i + 1]);
      }
    }
  }

  lemma ChainAfter(chain: seq<string>, a: string, b: string, z: string)
    requires EditChain(chain, a, b) && Edit(z, a)
    ensures EditChain([z] + chain, z, b)
  {
    hide Edit;
    var longer := [z] + chain;
    forall i | 0 <= i < |longer| - 1 ensures Edit(longer[i], longer[i + 1]) {
      if i > 0 {
        assert Edit(chain[i - 1], chain[i - 1 + 1]);
      }
    }
  }

  lemma ChainExtends(chain: seq<string>, a: string, b: string, c: char) returns (longer: seq<string>)
    requires EditChain(chain, a, b)
    ensures EditChain(longer, a + [c], b + [c]) && |longer| == |chain|
  {
    hide Edit;
    longer := seq(|chain|, i requires 0 <= i < |chain| => chain[i] + [c]);
    forall i | 0 <= i < |longer| - 1 ensures Edit(longer[i], longer[i + 1]) {
      assert Edit(chain[i], chain[i + 1]);
      EditExtends(chain[i], chain[i + 1], c);
    }
  }

  lemma DistanceCases(a: string, b: string)
    ensures a == [] ==> Distance(a, b) == |b|
    ensures b == [] ==> Distance(a, b) == |a|
    ensures a != [] && b != [] ==>
              || Distance(a, b) == Distance(Front(a), Front(b)) + Cost(a, b)
              || Distance(a, b) == Distance(Front(a), b) + 1
              || Distance(a, b) == Distance(a, Front(b)) + 1
  {
  }

  /** ... and some chain has exactly that length: the distance is the fewest edits. */
  lemma {:induction false} ShortestChain(a: string, b: string) returns (chain: seq<string>)
    ensures EditChain(chain, a, b) && |chain| - 1 == Distance(a, b)
    decreases |a| + |b|
  {
    hide Edit, EditChain, Distance;
    DistanceCases(a, b);
    if a == [] && b == [] {
      chain := [a];
      ChainOfOne(a);
    } else if b == [] || (a != [] && Distance(a, b) == Distance(Front(a), b) + 1) {
      var c := a[|a| - 1];
      assert a == Front(a) + [c] && Front(a) + [] == Front(a);
      DistanceCases(Front(a), b);
      chain := ShortestChain(Front(a), b);
      EditLast(Front(a), [c], []);
      ChainAfter(chain, Front(a), b, a);
      chain := [a] + chain;
    } else if a == [] || Distance(a, b) == Distance(a, Front(b)) + 1 {
      var c := b[|b| - 1];
      assert b == Front(b) + [c] && Front(b) + [] == Front(b);
      DistanceCases(a, Front(b));
      chain := ShortestChain(a, Front(b));
      EditLast(Front(b), [], [c]);
      ChainThen(chain, a, Front(b), b);
      chain := chain + [b];
    } else {
      var c, d := a[|a| - 1], b[|b| - 1];
      assert a == Front(a) + [c] && b == Front(b) + [d];
      chain := ShortestChain(Front(a), Front(b));
      chain := ChainExtends(chain, Front(a), Front(b), c);
      if c != d {
        EditLast(Front(b), [c], [d]);
        ChainThen(chain, a, Front(b) + [c], b);
        chain := chain + [b];
      }
    }
  }
}
