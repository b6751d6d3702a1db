/** The edit distance behind "did you mean": the table against its meaning, and the nearest name. */
module EditDistance {
  import opened Text

  function Min(a: nat, b: nat): nat { if a <= b then a else b }

  function Front(s: string): string
    requires s != ""
  {
    s[..|s| - 1]
  }

  function LastOf(s: string): char
    requires s != ""
  {
    s[|s| - 1]
  }

  /** The recurrence that the table fills, with the diagonal taken outright on equal characters. */
  function Lev(a: string, b: string): nat
    decreases |a| + |b|
  {
    if a == "" then |b|
    else if b == "" then |a|
    else if LastOf(a) == LastOf(b) then Lev(Front(a), Front(b))
    else 1 + Min(Lev(Front(a), Front(b)), Min(Lev(Front(a), b), Lev(a, Front(b))))
  }

  lemma LevSnoc(a: string, x: char, b: string, y: char)
    ensures Front(a + [x]) == a && Front(b + [y]) == b
    ensures Lev(a + [x], b + [y]) ==
              if x == y then Lev(a, b) else 1 + Min(Lev(a, b), Min(Lev(a, b + [y]), Lev(a + [x], b)))
  {
    assert Front(a + [x]) == a && Front(b + [y]) == b;
  }

  lemma LevEmpty(a: string)
    ensures Lev(a, "") == |a| && Lev("", a) == |a|
  {}

  lemma Snoc(s: string)
    requires s != ""
    ensures s == Front(s) + [LastOf(s)]
  {}

  ghost predicate Near(m: nat, n: nat) { m <= n + 1 && n <= m + 1 }

  /** One more character at the end of either side moves the distance by at most one. */
  lemma {:induction false} AppendNear(a: string, b: string, x: char)
    ensures Near(Lev(a + [x], b), Lev(a, b)) && Near(Lev(a, b + [x]), Lev(a, b))
    decreases |a| + |b|
  {
    hide Lev;
    if b == "" {
      LevEmpty(a);
      LevEmpty(a + [x]);
      assert b + [x] == [x];
      if a == "" { LevEmpty([x]); } else { AppendNearOne(a, x); }
    } else if a == "" {
      LevEmpty(b);
      LevEmpty(b + [x]);
      assert a + [x] == [x];
      AppendNearOne(b, x);
    } else {
      var c, d := Front(a), Front(b);
      Snoc(a);
      Snoc(b);
      LevSnoc(a, x, d, LastOf(b));
      LevSnoc(c, LastOf(a), b, x);
      LevSnoc(c, LastOf(a), d, LastOf(b));
      AppendNear(a, d, x);
      AppendNear(a, d, LastOf(b));
      AppendNear(c, b, x);
      AppendNear(c, b, LastOf(a));
    }
  }

  /** Against a single character the distance is the length or one less. */
  lemma {:induction false} AppendNearOne(a: string, x: char)
    requires a != ""
    ensures Lev(a, [x]) == Lev([x], a) && |a| - 1 <= Lev(a, [x]) <= |a|
    decreases |a|
  {
    hide Lev;
    var c := Front(a);
    Snoc(a);
    assert [x] == "" + [x];
    LevSnoc(c, LastOf(a), "", x);
    LevSnoc("", x, c, LastOf(a));
    LevEmpty(c);
    LevEmpty(a);
    LevEmpty([x]);
    if c != "" { AppendNearOne(c, x); }
  }

  /** Changing the last character moves it by at most one. */
  lemma {:induction false} ChangeNear(a: string, s: string, x: char, y: char)
    ensures Near(Lev(a, s + [x]), Lev(a, s + [y]))
    decreases |a|
  {
    hide Lev;
    if a == "" {
      LevEmpty(s + [x]);
      LevEmpty(s + [y]);
    } else {
      var c, z := Front(a), LastOf(a);
      Snoc(a);
      LevSnoc(c, z, s, x);
      LevSnoc(c, z, s, y);
      ChangeNear(c, s, x, y);
      AppendNear(c, s, x);
      AppendNear(c, s, y);
      AppendNear(c, s, z);
    }
  }

  /** Two strings that every string is nearly as far from. */
  ghost predicate Neighbours(s: string, t: string) { forall a :: Near(Lev(a, s), Lev(a, t)) }

  lemma {:induction false} ExtendNear(a: string, s: string, t: string, d: char)
    requires Neighbours(s, t)
    ensures Near(Lev(a, s + [d]), Lev(a, t + [d]))
    decreases |a|
  {
    hide Lev;
    if a == "" {
      LevEmpty(s);
      LevEmpty(t);
      LevEmpty(s + [d]);
      LevEmpty(t + [d]);
      assert Near(Lev("", s), Lev("", t));
    } else {
      var c := Front(a);
      Snoc(a);
      LevSnoc(c, LastOf(a), s, d);
      LevSnoc(c, LastOf(a), t, d);
      ExtendNear(c, s, t, d);
      assert Near(Lev(c, s), Lev(c, t)) && Near(Lev(a, s), Lev(a, t));
    }
  }

  lemma {:induction false} NeighboursExtend(s: string, t: string, v: string)
    requires Neighbours(s, t)
    ensures Neighbours(s + v, t + v)
    decreases |v|
  {
    if v == "" {
      assert s + v == s && t + v == t;
    } else {
      var w, d := Front(v), LastOf(v);
      Snoc(v);
      NeighboursExtend(s, t, w);
      assert s + v == (s + w) + [d] && t + v == (t + w) + [d];
      forall a ensures Near(Lev(a, s + v), Lev(a, t + v)) { ExtendNear(a, s + w, t + w, d); }
    }
  }

  // ----- edits -----

  /** `t` is `s` with one character put in at `i`. */
  ghost predicate InsertedAt(s: string, t: string, i: nat) {
    i <= |s| && |t| == |s| + 1 && t == s[..i] + [t[i]] + s[i..]
  }

  ghost predicate ChangedAt(s: string, t: string, i: nat) {
    i < |s| && |t| == |s| && t == s[..i] + [t[i]] + s[i + 1..]
  }

  /** One insertion, deletion or substitution. */
  ghost predicate OneEdit(s: string, t: string) {
    exists i: nat :: InsertedAt(s, t, i) || InsertedAt(t, s, i) || ChangedAt(s, t, i)
  }

  lemma InsertNeighbours(s: string, t: string, i: nat)
    requires InsertedAt(s, t, i)
    ensures Neighbours(s, t)
  {
    var u, v := s[..i], s[i..];
    forall a ensures Near(Lev(a, u), Lev(a, u + [t[i]])) { AppendNear(a, u, t[i]); }
    NeighboursExtend(u, u + [t[i]], v);
    assert s == u + v;
  }

  lemma ChangeNeighbours(s: string, t: string, i: nat)
    requires ChangedAt(s, t, i)
    ensures Neighbours(s, t)
  {
    hide Lev, Near;
    var u, v := s[..i], s[i + 1..];
    forall a ensures Near(Lev(a, u + [s[i]]), Lev(a, u + [t[i]])) { ChangeNear(a, u, s[i], t[i]); }
    NeighboursExtend(u + [s[i]], u + [t[i]], v);
    assert s == u + [s[i]] + v;
  }

  lemma EditNeighbours(s: string, t: string)
    requires OneEdit(s, t)
    ensures Neighbours(s, t)
  {
    hide InsertedAt, ChangedAt;
    var i: nat :| InsertedAt(s, t, i) || InsertedAt(t, s, i) || ChangedAt(s, t, i);
    if InsertedAt(s, t, i) {
      InsertNeighbours(s, t, i);
    } else if InsertedAt(t, s, i) {
      InsertNeighbours(t, s, i);
    } else {
      ChangeNeighbours(s, t, i);
    }
  }

  /** A way from `a` to `b` by single edits. */
  ghost predicate Path(p: seq<string>, a: string, b: string) {
    && p != [] && p[0] == a && p[|p| - 1] == b
    && forall i :: 0 <= i < |p| - 1 ==> OneEdit(p[i], p[i + 1])
  }

  lemma {:induction false} LevSelf(a: string)
    ensures Lev(a, a) == 0
    decreases |a|
  {
    if a != "" { LevSelf(Front(a)); }
  }

  /** No path is shorter than the distance. */
  lemma {:induction false} PathAtLeast(p: seq<string>, a: string, b: string)
    requires Path(p, a, b)
    ensures Lev(a, b) <= |p| - 1
    decreases |p|
  {
    hide Lev;
    if |p| == 1 {
      LevSelf(a);
    } else {
      var q, m := p[..|p| - 1], p[|p| - 2];
      assert Path(q, a, m);
      PathAtLeast(q, a, m);
      assert OneEdit(p[|p| - 2], p[|p| - 1]);
      EditNeighbours(m, b);
      assert Near(Lev(a, m), Lev(a, b));
    }
  }

  lemma InsertExtend(s: string, t: string, i: nat, d: char)
    requires InsertedAt(s, t, i)
    ensures InsertedAt(s + [d], t + [d], i)
  {
    var x := s + [d];
    assert x[..i] == s[..i] && x[i..] == s[i..] + [d];
  }

  lemma ChangeExtend(s: string, t: string, i: nat, d: char)
    requires ChangedAt(s, t, i)
    ensures ChangedAt(s + [d], t + [d], i)
  {
    var x := s + [d];
    assert x[..i] == s[..i] && x[i + 1..] == s[i + 1..] + [d];
  }

  lemma EditExtend(s: string, t: string, d: char)
    requires OneEdit(s, t)
    ensures OneEdit(s + [d], t + [d])
  {
    hide InsertedAt, ChangedAt;
    var i: nat :| InsertedAt(s, t, i) || InsertedAt(t, s, i) || ChangedAt(s, t, i);
    if InsertedAt(s, t, i) {
      InsertExtend(s, t, i, d);
    } else if InsertedAt(t, s, i) {
      InsertExtend(t, s, i, d);
    } else {
      ChangeExtend(s, t, i, d);
    }
  }

  function Extended(p: seq<string>, d: char): (r: seq<string>)
    ensures |r| == |p| && forall i :: 0 <= i < |r| ==> r[i] == p[i] + [d]
  {
    seq(|p|, i requires 0 <= i < |p| => p[i] + [d])
  }

  lemma PathExtend(p: seq<string>, a: string, b: string, d: char)
    requires Path(p, a, b)
    ensures Path(Extended(p, d), a + [d], b + [d])
  {
    var q := Extended(p, d);
    forall i | 0 <= i < |q| - 1 ensures OneEdit(q[i], q[i + 1]) { EditExtend(p[i], p[i + 1], d); }
  }

  lemma DropLastEdit(s: string)
    requires s != ""
    ensures OneEdit(s, Front(s)) && OneEdit(Front(s), s)
  {
    assert InsertedAt(Front(s), s, |s| - 1);
  }

  lemma ChangeLastEdit(s: string, x: char, y: char)
    ensures OneEdit(s + [x], s + [y])
  {
    assert ChangedAt(s + [x], s + [y], |s|);
  }

  lemma SinglePath(a: string)
    ensures Path([a], a, a)
  {}

  lemma PathPrepend(a: string, m: string, q: seq<string>, b: string)
    requires OneEdit(a, m) && Path(q, m, b)
    ensures Path([a] + q, a, b)
  {
    hide OneEdit;
  }

  lemma PathAppend(a: string, q: seq<string>, m: string, b: string)
    requires Path(q, a, m) && OneEdit(m, b)
    ensures Path(q + [b], a, b)
  {
    hide OneEdit;
  }

  /** Some path is as short as the distance. */
  lemma {:induction false} PathExists(a: string, b: string) returns (p: seq<string>)
    ensures Path(p, a, b) && |p| - 1 == Lev(a, b)
    decreases |a| + |b|
  {
    hide Path, OneEdit;
    if a == "" && b == "" {
      SinglePath(a);
      p := [a];
    } else if b == "" || (a != "" && LastOf(a) != LastOf(b) && Lev(a, b) == 1 + Lev(Front(a), b)) {
      DropLastEdit(a);
      var q := PathExists(Front(a), b);
      PathPrepend(a, Front(a), q, b);
      p := [a] + q;
    } else if a == "" || (LastOf(a) != LastOf(b) && Lev(a, b) == 1 + Lev(a, Front(b))) {
      DropLastEdit(b);
      var q := PathExists(a, Front(b));
      PathAppend(a, q, Front(b), b);
      p := q + [b];
    } else {
      var q := PathExists(Front(a), Front(b));
      PathExtend(q, Front(a), Front(b), LastOf(a));
      Snoc(a);
      Snoc(b);
      p := Extended(q, LastOf(a));
      if LastOf(a) != LastOf(b) {
        ChangeLastEdit(Front(b), LastOf(a), LastOf(b));
        PathAppend(a, p, Front(b) + [LastOf(a)], b);
        p := p + [b];
      }
    }
  }

  /** The distance is the least number of single edits. */
  lemma LevIsLeast(a: string, b: string)
    ensures exists p :: Path(p, a, b) && |p| - 1 == Lev(a, b)
    ensures forall p :: Path(p, a, b) ==> Lev(a, b) <= |p| - 1
  {
    var p := PathExists(a, b);
    forall q | Path(q, a, b) ensures Lev(a, b) <= |q| - 1 { PathAtLeast(q, a, b); }
  }

  // ----- a metric -----

  lemma {:induction false} Symmetric(a: string, b: string)
    ensures Lev(a, b) == Lev(b, a)
    decreases |a| + |b|
  {
    if a != "" && b != "" {
      Symmetric(Front(a), Front(b));
      Symmetric(Front(a), b);
      Symmetric(a, Front(b));
    }
  }

  lemma {:induction false} ZeroIffEqual(a: string, b: string)
    ensures Lev(a, b) == 0 <==> a == b
    decreases |a|
  {
    if a != "" && b != "" && LastOf(a) == LastOf(b) {
      ZeroIffEqual(Front(a), Front(b));
      Snoc(a);
      Snoc(b);
    }
  }

  lemma Triangle(a: string, b: string, c: string)
    ensures Lev(a, c) <= Lev(a, b) + Lev(b, c)
  {
    hide Lev;
    var p := PathExists(a, b);
    var q := PathExists(b, c);
    var r := p + q[1..];
    forall i | 0 <= i < |r| - 1 ensures OneEdit(r[i], r[i + 1]) {
      if i < |p| - 1 {
        assert OneEdit(p[i], p[i + 1]);
      } else {
        assert OneEdit(q[i - |p| + 1], q[i - |p| + 2]);
      }
    }
    assert Path(r, a, c);
    PathAtLeast(r, a, c);
  }

  // ----- the table -----

  lemma Prefixes(a: string, b: string, i: nat, j: nat)
    requires 0 < i <= |a| && 0 < j <= |b|
    ensures Lev(a[..i], b[..j]) ==
              if a[i - 1] == b[j - 1] then Lev(a[..i - 1], b[..j - 1])
              else 1 + Min(Lev(a[..i - 1], b[..j - 1]), Min(Lev(a[..i - 1], b[..j]), Lev(a[..i], b[..j - 1])))
  {
    assert Front(a[..i]) == a[..i - 1] && Front(b[..j]) == b[..j - 1];
  }

  method Levenshtein(a: string, b: string) returns (d: nat)
    ensures d == Lev(a, b)
  {
    hide Lev;
    var dp := new nat[|a| + 1, |b| + 1]((i, j) => 0);
    for i := 0 to |a| + 1
      invariant forall k :: 0 <= k < i ==> dp[k, 0] == k
    {
      dp[i, 0] := i;
    }
    for j := 0 to |b| + 1
      invariant forall k :: 0 <= k <= |a| ==> dp[k, 0] == k
      invariant forall k :: 0 <= k < j ==> dp[0, k] == k
    {
      dp[0, j] := j;
    }
    forall i | 0 <= i <= |a| ensures dp[i, 0] == Lev(a[..i], b[..0]) { LevEmpty(a[..i]); }
    forall j | 0 <= j <= |b| ensures dp[0, j] == Lev(a[..0], b[..j]) { LevEmpty(b[..j]); }
    for i := 1 to |a| + 1
      invariant forall j :: 0 <= j <= |b| ==> dp[0, j] == Lev(a[..0], b[..j])
      invariant forall k :: 0 <= k <= |a| ==> dp[k, 0] == Lev(a[..k], b[..0])
      invariant forall k, j :: 0 <= k < i && 0 <= j <= |b| ==> dp[k, j] == Lev(a[..k], b[..j])
    {
      for j := 1 to |b| + 1
        invariant forall k :: 0 <= k <= |a| ==> dp[k, 0] == Lev(a[..k], b[..0])
        invariant forall k, n :: 0 <= k < i && 0 <= n <= |b| ==> dp[k, n] == Lev(a[..k], b[..n])
        invariant forall n :: 0 <= n < j ==> dp[i, n] == Lev(a[..i], b[..n])
      {
        Prefixes(a, b, i, j);
        dp[i, j] := if a[i - 1] == b[j - 1] then dp[i - 1, j - 1]
                    else 1 + Min(dp[i - 1, j - 1], Min(dp[i - 1, j], dp[i, j - 1]));
      }
    }
    assert a[..|a|] == a && b[..|b|] == b;
    d := dp[|a|, |b|];
  }

  // ----- the nearest table -----

  function Threshold(word: string, name: string): nat {
    var quarter := Min(|word|, |name|) / 4;
    if quarter > 1 then quarter else 1
  }

  /** `word` is a likely misspelling of `name`. */
  predicate Qualifies(word: string, name: string) { Low(name) != word && Lev(word, Low(name)) <= Threshold(word, Low(name)) }

  /** One edit is forgiven, and from eight characters on one for every four of the shorter name. */
  lemma ThresholdMeans(word: string, name: string)
    ensures var n, least := Threshold(word, name), if |word| <= |name| then |word| else |name|;
            n >= 1 && (n == 1 || 4 * n <= least) && least < 4 * (n + 1)
  {}

  /** In the order the words, and for each the tables, are gone through. */
  predicate Before(k: int, l: int, i: int, j: int) { k < i || (k == i && l < j) }

  ghost predicate Pair(words: seq<string>, tables: seq<string>, i: int, j: int) {
    0 <= i < |words| && 0 <= j < |tables| && Qualifies(words[i], tables[j])
  }

  /** None exactly when no pair qualifies; otherwise a table of a pair at the least qualifying distance. */
  method ClosestTableName(words: seq<string>, tables: seq<string>) returns (best: Option<string>)
    ensures best.None? <==> forall i, j :: !Pair(words, tables, i, j)
    ensures best.Some? ==>
              exists i, j :: Pair(words, tables, i, j) && best.value == tables[j]
                && forall k, l :: Pair(words, tables, k, l) ==>
                     if Before(k, l, i, j) then Lev(words[i], Low(tables[j])) < Lev(words[k], Low(tables[l]))
                     else Lev(words[i], Low(tables[j])) <= Lev(words[k], Low(tables[l]))
  {
    hide Lev, Low, Threshold;
    best := None;
    var bestDistance: nat := 0;
    ghost var bi, bj := 0, 0;
    for i := 0 to |words|
      invariant best.None? ==> forall k, l :: Pair(words, tables, k, l) ==> k >= i
      invariant best.Some? ==>
                  Pair(words, tables, bi, bj) && best.value == tables[bj] && bestDistance == Lev(words[bi], Low(tables[bj]))
      invariant best.Some? ==> forall k, l :: Pair(words, tables, k, l) && k < i ==> bestDistance <= Lev(words[k], Low(tables[l]))
      invariant best.Some? ==> bi < i && forall k, l :: Pair(words, tables, k, l) && Before(k, l, bi, bj) ==>
                                 bestDistance < Lev(words[k], Low(tables[l]))
    {
      for j := 0 to |tables|
        invariant best.None? ==> forall k, l :: Pair(words, tables, k, l) ==> k > i || (k == i && l >= j)
        invariant best.Some? ==>
                  Pair(words, tables, bi, bj) && best.value == tables[bj] && bestDistance == Lev(words[bi], Low(tables[bj]))
        invariant best.Some? ==> forall k, l :: Pair(words, tables, k, l) && (k < i || (k == i && l < j)) ==>
                                   bestDistance <= Lev(words[k], Low(tables[l]))
        invariant best.Some? ==> Before(bi, bj, i, j) && forall k, l :: Pair(words, tables, k, l) && Before(k, l, bi, bj) ==>
                                   bestDistance < Lev(words[k], Low(tables[l]))
      {
        var name := Low(tables[j]);
        if name == words[i] { continue; }
        var distance := Levenshtein(words[i], name);
        if distance <= Threshold(words[i], name) && (best.None? || distance < bestDistance) {
          best, bestDistance, bi, bj := Some(tables[j]), distance, i, j;
        }
      }
    }
  }
}
