/** The newest-first merge of three work streams: what a studio timeline means. */
module Timeline {
  import opened TextOrder

  datatype Kind = Movie | Series

  /** A row of a timeline. An absent release date is the empty string. */
  datatype Work = Work(kind: Kind, tmdbId: Option<int>, key: string, releaseDate: string, listed: bool)

  /** The sort key (release date, key) of x is strictly greater than that of y. */
  predicate Newer(x: Work, y: Work) {
    Below(y.releaseDate, x.releaseDate) || (x.releaseDate == y.releaseDate && Below(y.key, x.key))
  }

  predicate NewestFirst(s: seq<Work>) {
    forall i, j :: 0 <= i < j < |s| ==> !Newer(s[j], s[i])
  }

  lemma NotNewerTransitive(x: Work, y: Work, z: Work)
    requires !Newer(y, x) && !Newer(z, y)
    ensures !Newer(z, x)
  {
    BelowTotal(x.releaseDate, y.releaseDate);
    BelowTotal(y.releaseDate, z.releaseDate);
    BelowTotal(x.key, y.key);
    BelowTotal(y.key, z.key);
    BelowIrreflexive(x.releaseDate);
    BelowIrreflexive(x.key);
    if Newer(z, x) {
      if Below(x.releaseDate, z.releaseDate) {
        if Below(z.releaseDate, y.releaseDate) {
          BelowTransitive(x.releaseDate, z.releaseDate, y.releaseDate);
        }
      } else {
        if Below(z.releaseDate, y.releaseDate) && Below(y.releaseDate, x.releaseDate) {
          BelowTransitive(z.releaseDate, y.releaseDate, x.releaseDate);
        }
        if Below(z.key, y.key) && Below(y.key, x.key) {
          BelowTransitive(z.key, y.key, x.key);
          BelowTransitive(x.key, z.key, x.key);
        }
      }
    }
  }

  lemma NewerAsymmetric(x: Work, y: Work)
    requires Newer(x, y)
    ensures !Newer(y, x)
  {
    if Below(y.releaseDate, x.releaseDate) && Below(x.releaseDate, y.releaseDate) {
      BelowTransitive(y.releaseDate, x.releaseDate, y.releaseDate);
    }
    if Below(y.key, x.key) && Below(x.key, y.key) {
      BelowTransitive(y.key, x.key, y.key);
    }
    BelowIrreflexive(x.releaseDate);
    BelowIrreflexive(y.releaseDate);
    BelowIrreflexive(y.key);
  }

  // ----- stable newest-first sort of the known works

  function Insert(w: Work, s: seq<Work>): (r: seq<Work>)
    ensures multiset(r) == multiset(s) + multiset{w}
  {
    if s == [] then [w]
    else if Newer(w, s[0]) then [w] + s
    else
      assert s == [s[0]] + s[1..];
      [s[0]] + Insert(w, s[1..])
  }

  lemma {:induction false} InsertSorted(w: Work, s: seq<Work>)
    requires NewestFirst(s)
    ensures NewestFirst(Insert(w, s))
  {
    var r := Insert(w, s);
    if s == [] {
    } else if Newer(w, s[0]) {
      forall i | 0 <= i < |s|
        ensures !Newer(s[i], w)
      {
        NewerAsymmetric(w, s[0]);
        if i > 0 {
          NotNewerTransitive(w, s[0], s[i]);
        }
      }
    } else {
      InsertSorted(w, s[1..]);
      var t := Insert(w, s[1..]);
      forall i | 0 <= i < |t|
        ensures !Newer(t[i], s[0])
      {
        assert t[i] in multiset(t);
        if t[i] != w {
          assert t[i] in multiset(s[1..]);
        }
      }
    }
  }

  function SortNewestFirst(s: seq<Work>): (r: seq<Work>)
    ensures multiset(r) == multiset(s)
  {
    if s == [] then [] else
      assert s == s[..|s| - 1] + [s[|s| - 1]];
      Insert(s[|s| - 1], SortNewestFirst(s[..|s| - 1]))
  }

  lemma {:induction false} SortSorts(s: seq<Work>)
    ensures NewestFirst(SortNewestFirst(s))
  {
    if s != [] {
      SortSorts(s[..|s| - 1]);
      InsertSorted(s[|s| - 1], SortNewestFirst(s[..|s| - 1]));
    }
  }

  // ----- the greedy merge

  /** Among the non-empty streams, the first one whose head no other head is newer than. */
  function Leader(a: seq<Work>, b: seq<Work>, c: seq<Work>): (i: nat)
    requires a != [] || b != [] || c != []
  {
    var ab := if a == [] || (b != [] && Newer(b[0], a[0])) then 1 else 0;
    var best := if ab == 0 then a else b;
    if best == [] || (c != [] && Newer(c[0], best[0])) then 2 else ab
  }

  function Merge(a: seq<Work>, b: seq<Work>, c: seq<Work>): seq<Work>
    decreases |a| + |b| + |c|
  {
    if a == [] && b == [] && c == [] then []
    else match Leader(a, b, c)
      case 0 => [a[0]] + Merge(a[1..], b, c)
      case 1 => [b[0]] + Merge(a, b[1..], c)
      case _ => [c[0]] + Merge(a, b, c[1..])
  }

  lemma HeadAndTail(s: seq<Work>)
    requires s != []
    ensures multiset(s) == multiset{s[0]} + multiset(s[1..])
  {
    assert s == [s[0]] + s[1..];
  }

  lemma Prepended(w: Work, s: seq<Work>)
    ensures multiset([w] + s) == multiset{w} + multiset(s)
  {}

  lemma {:induction false} MergeKeepsEveryRow(a: seq<Work>, b: seq<Work>, c: seq<Work>)
    ensures multiset(Merge(a, b, c)) == multiset(a) + multiset(b) + multiset(c)
    decreases |a| + |b| + |c|
  {
    if a == [] && b == [] && c == [] {
    } else {
      var i := Leader(a, b, c);
      if i == 0 {
        MergeKeepsEveryRow(a[1..], b, c);
        HeadAndTail(a);
        Prepended(a[0], Merge(a[1..], b, c));
      } else if i == 1 {
        MergeKeepsEveryRow(a, b[1..], c);
        HeadAndTail(b);
        Prepended(b[0], Merge(a, b[1..], c));
      } else {
        MergeKeepsEveryRow(a, b, c[1..]);
        HeadAndTail(c);
        Prepended(c[0], Merge(a, b, c[1..]));
      }
    }
  }

  lemma MergeLength(a: seq<Work>, b: seq<Work>, c: seq<Work>)
    ensures |Merge(a, b, c)| == |a| + |b| + |c|
  {
    MergeKeepsEveryRow(a, b, c);
    assert |multiset(Merge(a, b, c))| == |Merge(a, b, c)|;
    assert |multiset(a)| == |a| && |multiset(b)| == |b| && |multiset(c)| == |c|;
  }

  lemma HeadLeads(s: seq<Work>, w: Work, x: Work)
    requires NewestFirst(s) && x in s
    requires !Newer(s[0], w)
    ensures !Newer(x, w)
  {
    var i :| 0 <= i < |s| && s[i] == x;
    if i > 0 {
      NotNewerTransitive(w, s[0], x);
    }
  }

  lemma NewerTransitive(x: Work, y: Work, z: Work)
    requires Newer(x, y) && Newer(y, z)
    ensures Newer(x, z)
  {
    if Below(y.releaseDate, x.releaseDate) && Below(z.releaseDate, y.releaseDate) {
      BelowTransitive(z.releaseDate, y.releaseDate, x.releaseDate);
    }
    if Below(y.key, x.key) && Below(z.key, y.key) {
      BelowTransitive(z.key, y.key, x.key);
    }
  }

  /** No head is newer than the leader's head, and equal heads are taken in stream order. */
  lemma LeaderLeads(a: seq<Work>, b: seq<Work>, c: seq<Work>)
    requires a != [] || b != [] || c != []
    ensures var i := Leader(a, b, c);
            && var s := [a, b, c][i];
            && s != []
            && (a != [] ==> !Newer(a[0], s[0]))
            && (b != [] ==> !Newer(b[0], s[0]))
            && (c != [] ==> !Newer(c[0], s[0]))
            && (i > 0 && a != [] ==> Newer(s[0], a[0]))
            && (i > 1 && b != [] ==> Newer(s[0], b[0]))
  {
    var i := Leader(a, b, c);
    if a != [] && b != [] {
      if Newer(b[0], a[0]) { NewerAsymmetric(b[0], a[0]); }
    }
    if a != [] { NewerIrreflexive(a[0]); }
    if b != [] { NewerIrreflexive(b[0]); }
    if c != [] { NewerIrreflexive(c[0]); }
    if i == 2 {
      var best := if a == [] || (b != [] && Newer(b[0], a[0])) then b else a;
      if best != [] {
        NewerAsymmetric(c[0], best[0]);
        if a != [] && b != [] {
          NotNewerTransitive(c[0], best[0], a[0]);
          NotNewerTransitive(c[0], best[0], b[0]);
          if Newer(b[0], a[0]) {
            NewerTransitive(c[0], b[0], a[0]);
          } else {
            LaterBeatsBoth(c[0], a[0], b[0]);
          }
        }
      }
    }
  }

  lemma LaterBeatsBoth(x: Work, y: Work, z: Work)
    requires Newer(x, y) && !Newer(z, y)
    ensures Newer(x, z)
  {
    if !Newer(x, z) {
      NotNewerTransitive(y, z, x);
    }
  }

  lemma NewerIrreflexive(x: Work)
    ensures !Newer(x, x)
  {
    BelowIrreflexive(x.releaseDate);
    BelowIrreflexive(x.key);
  }

  /** Prepending a row that nothing in the rest is newer than keeps the order. */
  lemma NewestFirstCons(w: Work, rest: seq<Work>, a: seq<Work>, b: seq<Work>, c: seq<Work>)
    requires NewestFirst(rest) && NewestFirst(a) && NewestFirst(b) && NewestFirst(c)
    requires forall x :: x in rest ==> x in a || x in b || x in c
    requires a != [] ==> !Newer(a[0], w)
    requires b != [] ==> !Newer(b[0], w)
    requires c != [] ==> !Newer(c[0], w)
    ensures NewestFirst([w] + rest)
  {
    forall j | 0 <= j < |rest|
      ensures !Newer(rest[j], w)
    {
      if rest[j] in a { HeadLeads(a, w, rest[j]); }
      else if rest[j] in b { HeadLeads(b, w, rest[j]); }
      else { HeadLeads(c, w, rest[j]); }
    }
  }

  lemma MembersOfSum(m: seq<Work>, a: seq<Work>, b: seq<Work>, c: seq<Work>)
    requires multiset(m) == multiset(a) + multiset(b) + multiset(c)
    ensures forall x :: x in m ==> x in a || x in b || x in c
  {
    forall x | x in m
      ensures x in a || x in b || x in c
    {
      assert x in multiset(m);
    }
  }

  lemma MergeMembers(a: seq<Work>, b: seq<Work>, c: seq<Work>)
    ensures forall x :: x in Merge(a, b, c) ==> x in a || x in b || x in c
  {
    MergeKeepsEveryRow(a, b, c);
    MembersOfSum(Merge(a, b, c), a, b, c);
  }

  /** Merging sorted streams gives a sorted timeline: the greedy choice is globally newest first. */
  lemma {:induction false} MergeSorted(a: seq<Work>, b: seq<Work>, c: seq<Work>)
    requires NewestFirst(a) && NewestFirst(b) && NewestFirst(c)
    ensures NewestFirst(Merge(a, b, c))
    decreases |a| + |b| + |c|
  {
    if a == [] && b == [] && c == [] {
    } else {
      LeaderLeads(a, b, c);
      var i := Leader(a, b, c);
      if i == 0 {
        MergeSorted(a[1..], b, c);
        MergeMembers(a[1..], b, c);
        NewestFirstCons(a[0], Merge(a[1..], b, c), a, b, c);
      } else if i == 1 {
        MergeSorted(a, b[1..], c);
        MergeMembers(a, b[1..], c);
        NewestFirstCons(b[0], Merge(a, b[1..], c), a, b, c);
      } else {
        MergeSorted(a, b, c[1..]);
        MergeMembers(a, b, c[1..]);
        NewestFirstCons(c[0], Merge(a, b, c[1..]), a, b, c);
      }
    }
  }
}
