/** What evidence a queue holds after any run, said of the provider replies of its successful jobs. */
module EvidenceWorks {
  import opened TextOrder
  import opened EvidenceQueue

  /**
   The two replies of a successful job: for a person the cast and the crew, for a studio a page of each media kind.
   */
  datatype Visit = Visit(first: Reply, second: Reply)

  /** A first visit that leaves a second page to read, of either kind. */
  predicate LeavesMore(v: Visit) {
    v.first.totalPages >= 2 || v.second.totalPages >= 2
  }

  predicate Succeeds(w: World, a: Action, k: Key) {
    a.Succeed? && Fenced(w, a.token) && w.jobs[a.token].key == k
  }

  /** The successes for a key since it last began at page one: one visit, or two when the first left more. */
  ghost function Visits(now: int, actions: seq<Action>, k: Key): seq<Visit> {
    if actions == [] then []
    else
      var before, a := actions[..|actions| - 1], actions[|actions| - 1];
      var earlier := Visits(now, before, k);
      if !Succeeds(Run(Start(now), before), a, k) then earlier
      else if k.kind == Studio && |earlier| == 1 && LeavesMore(earlier[0]) then earlier + [Visit(a.movies, a.series)]
      else [Visit(a.movies, a.series)]
  }

  function Rows(wanted: bool, reply: Reply): seq<int> {
    if wanted then reply.eligible else []
  }

  /** Both lists of the first visit, and of the second the page of each kind that has one. */
  function Gathered(visits: seq<Visit>): seq<int>
    requires 1 <= |visits| <= 2
  {
    visits[0].first.eligible + visits[0].second.eligible
    + if |visits| == 1 then []
      else Rows(visits[0].first.totalPages >= 2, visits[1].first)
           + Rows(visits[0].second.totalPages >= 2, visits[1].second)
  }

  function PageTwo(wanted: bool): Option<nat> {
    if wanted then Some(2) else None
  }

  /** The stored evidence is that of the visits, and names the pages still to be read. */
  ghost predicate Reflects(kind: Kind, payload: Option<Payload>, visits: seq<Visit>) {
    if visits == [] then payload.None?
    else
      && |visits| <= 2 && (|visits| == 2 ==> kind == Studio && LeavesMore(visits[0]))
      && payload.Some? && payload.value.works == Gathered(visits)
      && var open := kind == Studio && |visits| == 1;
         && payload.value.moviePage == PageTwo(open && visits[0].first.totalPages >= 2)
         && payload.value.seriesPage == PageTwo(open && visits[0].second.totalPages >= 2)
         && payload.value.complete == !(open && LeavesMore(visits[0]))
  }

  lemma NextVisit(kind: Kind, payload: Option<Payload>, visits: seq<Visit>, movies: Reply, series: Reply)
    requires Reflects(kind, payload, visits)
    ensures var v := Visit(movies, series);
            var next := if kind == Studio && |visits| == 1 && LeavesMore(visits[0]) then visits + [v] else [v];
            Reflects(kind, Some(LoadEvidence(kind, payload, movies, series)), next)
  {
    var v := Visit(movies, series);
    var loaded := LoadEvidence(kind, payload, movies, series);
    if kind == Studio && |visits| == 1 && LeavesMore(visits[0]) {
      assert (visits + [v])[0] == visits[0] && (visits + [v])[1] == v;
      assert loaded.works == Gathered(visits + [v]);
    } else {
      assert loaded.works == Gathered([v]);
    }
  }

  /** Only a success touches the evidence of a key. */
  lemma PayloadAfter(w: World, a: Action, k: Key)
    requires Sound(w)
    ensures k in w.rows ==> k in Do(w, a).rows
    ensures k !in w.rows && k in Do(w, a).rows ==> Do(w, a).rows[k].payload.None?
    ensures k in w.rows ==>
      Do(w, a).rows[k].payload ==
      if Succeeds(w, a, k) then Some(LoadEvidence(k.kind, w.rows[k].payload, a.movies, a.series))
      else w.rows[k].payload
  {
    hide Sound, LoadEvidence;
    if Succeeds(w, a, k) {
      JobFacts(w, a.token);
    }
  }

  /**
   Over any run a studio's stored works are the eligible rows of every reply of its successes since it last began at
   page one, in order and each page once; a person's are both lists of the last reply.
   */
  lemma {:induction false} EvidenceIsWhatWasRead(now: int, actions: seq<Action>, k: Key)
    ensures var w := Run(Start(now), actions);
            Reflects(k.kind, if k in w.rows then w.rows[k].payload else None, Visits(now, actions, k))
  {
    hide Do, Reflects, LoadEvidence, Sound;
    if actions == [] {
      NothingRead(k.kind);
    } else {
      var before, a := actions[..|actions| - 1], actions[|actions| - 1];
      var w := Run(Start(now), before);
      EveryRunIsSound(now, before);
      EvidenceIsWhatWasRead(now, before, k);
      PayloadAfter(w, a, k);
      if Succeeds(w, a, k) {
        NextVisit(k.kind, w.rows[k].payload, Visits(now, before, k), a.movies, a.series);
      }
    }
  }

  lemma NothingRead(kind: Kind)
    ensures Reflects(kind, None, [])
  {}
}
