/**
 The worker over time: install, activation, lazy completion and fetches (web/sw.js), every await a point
 where anything else may happen, every download free to fail, and the worker free to be killed.
 One worker version; the other caches are those earlier versions left.
 */
module WorkerRuns {
  import opened Results
  import opened Caches

  datatype Other = Other(name: nat, cache: Cache)

  /** A fill of the current cache in progress; `lazy` tells completion on navigation from activation. */
  datatype Task =
    | Scanning(lazy: bool, keys: set<nat>)
    | Filling(lazy: bool, keys: set<nat>, pending: set<Url>)
    | Checked(lazy: bool, keys: set<nat>, complete: bool)
    | Deleting(lazy: bool, complete: bool, todo: set<nat>)

  datatype State = State(
    active: bool,
    current: Cache,
    others: seq<Other>,
    tasks: map<nat, Task>,
    next: nat,
    now: nat,
    completionAt: nat
  )

  /** The precache list. */
  datatype Site = Site(assets: set<Url>)

  const SHELL: Url := "./index.html"
  const THROTTLE := 60_000

  datatype Event =
    | InstallAsset(asset: Url, net: Option<Response>, storable: bool)
    | FinishInstall
    | BeginLazy
    | Scan(task: nat)
    | Fill(task: nat, asset: Url, net: Option<Response>)
    | Settle(task: nat)
    | Decide(task: nat)
    | DeleteOther(task: nat, name: nat)
    | StoreFetched(url: Url, response: Response)
    | StoreShell(response: Response)
    | Kill
    | Tick(elapsed: nat)

  // ---------------------------------------------------------------- pieces

  predicate Usable(r: Response) {
    r.ok && !r.redirected
  }

  /** The copy install takes: the first old cache whose own first answer is usable (234-237). */
  function Reusable(others: seq<Other>, u: Url): Option<Response> {
    if |others| == 0 then None
    else
      match Match(others[0].cache, u, false)
      case Some(r) => if Usable(r) then Some(r) else Reusable(others[1..], u)
      case None => Reusable(others[1..], u)
  }

  /** What install finds for an asset the current cache does not hold: an old copy before a download. */
  function Source(others: seq<Other>, u: Url, net: Option<Response>): Option<Response> {
    if Versioned(u) && Reusable(others, u).Some? then Reusable(others, u)
    else if net.Some? && net.value.ok then net
    else None
  }

  function InstallOne(c: Cache, others: seq<Other>, u: Url, net: Option<Response>, storable: bool): Cache {
    if Match(c, u, false).Some? || Source(others, u, net).None? || !storable then c
    else Put(c, u, Source(others, u, net).value)
  }

  /** `cache.add`: a download that fails or is not ok stores nothing. */
  function AddTo(c: Cache, u: Url, net: Option<Response>): Cache {
    if net.Some? && net.value.ok then Put(c, u, net.value) else c
  }

  function Missing(site: Site, c: Cache): set<Url> {
    set u | u in site.assets && !Holds(c, u)
  }

  predicate Complete(site: Site, c: Cache) {
    forall u | u in site.assets :: Holds(c, u)
  }

  function Names(others: seq<Other>): set<nat> {
    set i | 0 <= i < |others| :: others[i].name
  }

  function Drop(others: seq<Other>, name: nat): seq<Other> {
    if |others| == 0 then []
    else (if others[0].name == name then [] else [others[0]]) + Drop(others[1..], name)
  }

  // ---------------------------------------------------------------- steps

  ghost predicate Enabled(site: Site, s: State, e: Event) {
    match e
    case InstallAsset(u, net, _) => !s.active && u in site.assets
    case FinishInstall => !s.active
    case BeginLazy => s.active
    case Scan(i) => i in s.tasks && s.tasks[i].Scanning?
    case Fill(i, u, net) => i in s.tasks && s.tasks[i].Filling? && u in s.tasks[i].pending
    case Settle(i) => i in s.tasks && s.tasks[i].Filling? && s.tasks[i].pending == {}
    case Decide(i) => i in s.tasks && s.tasks[i].Checked?
    case DeleteOther(i, name) => i in s.tasks && s.tasks[i].Deleting? && name in s.tasks[i].todo
    case StoreFetched(u, r) => s.active && r.ok
    case StoreShell(r) => s.active && r.ok
    case Kill => true
    case Tick(_) => true
  }

  function Spawn(s: State, t: Task): State {
    s.(tasks := s.tasks[s.next := t], next := s.next + 1)
  }

  function Decision(s: State, t: Task): Task
    requires t.Checked?
  {
    if t.complete then Deleting(t.lazy, true, if t.lazy then t.keys else Names(s.others))
    else if !t.lazy && |s.others| > 1 then Deleting(false, false, Names(s.others[..|s.others| - 1]))
    else Deleting(t.lazy, false, {})
  }

  function Next(site: Site, s: State, e: Event): State
    requires Enabled(site, s, e)
  {
    match e
    case InstallAsset(u, net, storable) => s.(current := InstallOne(s.current, s.others, u, net, storable))
    case FinishInstall => Spawn(s.(active := true), Scanning(false, {}))
    case BeginLazy =>
      if |s.others| == 0 || s.now < s.completionAt + THROTTLE then s
      else Spawn(s.(completionAt := s.now), Scanning(true, Names(s.others)))
    case Scan(i) => s.(tasks := s.tasks[i := Filling(s.tasks[i].lazy, s.tasks[i].keys, Missing(site, s.current))])
    case Fill(i, u, net) =>
      s.(current := AddTo(s.current, u, net), tasks := s.tasks[i := s.tasks[i].(pending := s.tasks[i].pending - {u})])
    case Settle(i) => s.(tasks := s.tasks[i := Checked(s.tasks[i].lazy, s.tasks[i].keys, Complete(site, s.current))])
    case Decide(i) => s.(tasks := s.tasks[i := Decision(s, s.tasks[i])])
    case DeleteOther(i, name) =>
      s.(others := Drop(s.others, name), tasks := s.tasks[i := s.tasks[i].(todo := s.tasks[i].todo - {name})])
    case StoreFetched(u, r) => s.(current := Put(s.current, u, r))
    case StoreShell(r) => s.(current := Put(s.current, SHELL, r))
    case Kill => s.(tasks := map[], completionAt := 0)
    case Tick(t) => s.(now := s.now + t)
  }

  ghost predicate Allowed(site: Site, s: State, es: seq<Event>)
    decreases |es|
  {
    |es| == 0 || (Enabled(site, s, es[0]) && Allowed(site, Next(site, s, es[0]), es[1..]))
  }

  function After(site: Site, s: State, es: seq<Event>): State
    requires Allowed(site, s, es)
    decreases |es|
  {
    if |es| == 0 then s else After(site, Next(site, s, es[0]), es[1..])
  }

  /** A worker about to install beside the caches earlier versions left, oldest first. */
  function Start(others: seq<Other>, now: nat): State {
    State(false, [], others, map[], 0, now, 0)
  }

  /** A navigation starts a completion exactly when an old cache is left and a minute has passed since the last. */
  lemma LazyWaits(site: Site, s: State)
    requires Enabled(site, s, BeginLazy)
    ensures var s2 := Next(site, s, BeginLazy);
            if |s.others| > 0 && s.now - s.completionAt >= 60_000
            then s2.completionAt == s.now && s2.tasks == s.tasks[s.next := Scanning(true, Names(s.others))]
            else s2 == s
  {
  }

  // ---------------------------------------------------------------- the current cache only grows

  lemma NextGrows(site: Site, s: State, e: Event, u: Url)
    requires Enabled(site, s, e) && Holds(s.current, u)
    ensures Holds(Next(site, s, e).current, u)
  {
    hide Put, Holds, Match, Source, Versioned;
    match e
    case InstallAsset(a, net, _) =>
      if Source(s.others, a, net).Some? {
        PutMatch(s.current, a, Source(s.others, a, net).value, u);
      }
    case Fill(_, a, net) => if net.Some? { PutMatch(s.current, a, net.value, u); }
    case StoreFetched(a, r) => PutMatch(s.current, a, r, u);
    case StoreShell(r) => PutMatch(s.current, SHELL, r, u);
    case _ =>
  }

  lemma NextStaysComplete(site: Site, s: State, e: Event)
    requires Enabled(site, s, e) && Complete(site, s.current)
    ensures Complete(site, Next(site, s, e).current)
  {
    hide Holds;
    forall u | u in site.assets
      ensures Holds(Next(site, s, e).current, u)
    {
      assert Holds(s.current, u);
      NextGrows(site, s, e, u);
    }
  }

  /** Once every asset is held, every asset stays held. */
  lemma {:induction false} CompleteForever(site: Site, s: State, es: seq<Event>)
    requires Allowed(site, s, es) && Complete(site, s.current)
    ensures Complete(site, After(site, s, es).current)
    decreases |es|
  {
    hide Next, Enabled, Complete;
    if |es| > 0 {
      NextStaysComplete(site, s, es[0]);
      CompleteForever(site, Next(site, s, es[0]), es[1..]);
    }
  }

  // ---------------------------------------------------------------- invariant

  predicate Distinct(others: seq<Other>) {
    forall i, j | 0 <= i < j < |others| :: others[i].name != others[j].name
  }

  /** The last other cache is still `newest`, the last of those the worker started with. */
  predicate NewestKept(others: seq<Other>, newest: Other) {
    |others| > 0 && others[|others| - 1] == newest
  }

  ghost predicate TaskOk(site: Site, s: State, newest: Other, t: Task) {
    match t
    case Scanning(lazy, keys) => lazy ==> Names(s.others) <= keys
    case Filling(lazy, keys, _) => lazy ==> Names(s.others) <= keys
    case Checked(lazy, keys, complete) => (lazy ==> Names(s.others) <= keys) && (complete ==> Complete(site, s.current))
    case Deleting(lazy, complete, todo) =>
      (Complete(site, s.current) || (!complete && newest.name !in todo)) &&
      (complete ==> Names(s.others) <= todo) &&
      (!complete && !lazy ==> Complete(site, s.current) || Names(s.others) <= todo + {newest.name})
  }

  ghost predicate Inv(site: Site, s: State, newest: Other) {
    Distinct(s.others) &&
    (NewestKept(s.others, newest) || Complete(site, s.current)) &&
    (!s.active ==> s.tasks == map[]) &&
    (forall i | i in s.tasks :: i < s.next && TaskOk(site, s, newest, s.tasks[i]))
  }

  lemma {:induction false} DropNames(others: seq<Other>, name: nat)
    ensures Names(Drop(others, name)) == Names(others) - {name}
    ensures Distinct(others) ==> Distinct(Drop(others, name))
  {
    if |others| == 0 {
      assert Names([]) == {};
    } else {
      hide Names, Distinct;
      var rest := others[1..];
      DropNames(rest, name);
      NamesSplit(others);
      DistinctSplit(others);
      if others[0].name != name {
        var d := [others[0]] + Drop(rest, name);
        assert d[1..] == Drop(rest, name) && d[0] == others[0];
        NamesSplit(d);
        DistinctSplit(d);
      } else {
        assert Drop(others, name) == Drop(rest, name);
      }
    }
  }

  lemma {:induction false} DropKeepsLast(others: seq<Other>, name: nat)
    requires |others| > 0 && others[|others| - 1].name != name
    ensures |Drop(others, name)| > 0 && Drop(others, name)[|Drop(others, name)| - 1] == others[|others| - 1]
  {
    if |others| > 1 {
      DropKeepsLast(others[1..], name);
    }
  }

  lemma DistinctSplit(others: seq<Other>)
    requires |others| > 0
    ensures Distinct(others) <==> others[0].name !in Names(others[1..]) && Distinct(others[1..])
  {
    var rest := others[1..];
    if others[0].name !in Names(rest) && Distinct(rest) {
      forall i, j | 0 <= i < j < |others|
        ensures others[i].name != others[j].name
      {
        assert others[j] == rest[j - 1] && rest[j - 1].name in Names(rest);
        if i > 0 {
          assert others[i] == rest[i - 1];
        }
      }
    }
  }

  lemma NamesSplit(others: seq<Other>)
    requires |others| > 0
    ensures Names(others) == {others[0].name} + Names(others[1..])
  {
    forall n | n in Names(others)
      ensures n == others[0].name || n in Names(others[1..])
    {
      var i :| 0 <= i < |others| && others[i].name == n;
      if i > 0 {
        assert others[1..][i - 1].name == n;
      }
    }
    forall n | n in Names(others[1..])
      ensures n in Names(others)
    {
      var i :| 0 <= i < |others[1..]| && others[1..][i].name == n;
      assert others[i + 1].name == n;
    }
    assert others[0].name in Names(others);
  }

  lemma NamesButLast(others: seq<Other>)
    requires |others| > 0
    ensures Names(others) == Names(others[..|others| - 1]) + {others[|others| - 1].name}
  {
    forall n | n in Names(others)
      ensures n in Names(others[..|others| - 1]) + {others[|others| - 1].name}
    {
      var i :| 0 <= i < |others| && others[i].name == n;
      if i < |others| - 1 {
        assert others[..|others| - 1][i].name == n;
      }
    }
    forall n | n in Names(others[..|others| - 1])
      ensures n in Names(others)
    {
      var i :| 0 <= i < |others| - 1 && others[..|others| - 1][i].name == n;
      assert others[i].name == n;
    }
    assert others[|others| - 1].name in Names(others);
  }

  lemma DeleteInv(site: Site, s: State, newest: Other, e: Event)
    requires Inv(site, s, newest) && Enabled(site, s, e) && e.DeleteOther?
    ensures Inv(site, Next(site, s, e), newest)
  {
    hide Complete;
    var s2 := Next(site, s, e);
    assert TaskOk(site, s, newest, s.tasks[e.task]);
    DropNames(s.others, e.name);
    if NewestKept(s.others, newest) && e.name != newest.name {
      DropKeepsLast(s.others, e.name);
    }
    hide Drop, Names, Distinct;
    forall i | i in s2.tasks
      ensures i < s2.next && TaskOk(site, s2, newest, s2.tasks[i])
    {
      assert TaskOk(site, s, newest, s.tasks[i]);
    }
  }

  lemma DecideInv(site: Site, s: State, newest: Other, e: Event)
    requires Inv(site, s, newest) && Enabled(site, s, e) && e.Decide?
    ensures Inv(site, Next(site, s, e), newest)
  {
    hide Complete;
    if |s.others| > 0 {
      NamesButLast(s.others);
    }
    var s2 := Next(site, s, e);
    forall i | i in s2.tasks
      ensures i < s2.next && TaskOk(site, s2, newest, s2.tasks[i])
    {
      assert TaskOk(site, s, newest, s.tasks[i]);
    }
  }

  lemma NextInv(site: Site, s: State, newest: Other, e: Event)
    requires Inv(site, s, newest) && Enabled(site, s, e)
    ensures Inv(site, Next(site, s, e), newest)
  {
    hide Holds, Put, Match, Versioned, Source, Drop, Names;
    var s2 := Next(site, s, e);
    if e.DeleteOther? {
      DeleteInv(site, s, newest, e);
    } else if e.Decide? {
      DecideInv(site, s, newest, e);
    } else {
      if Complete(site, s.current) {
        NextStaysComplete(site, s, e);
      }
      hide Complete, Distinct;
      forall i | i in s2.tasks
        ensures i < s2.next && TaskOk(site, s2, newest, s2.tasks[i])
      {
        assert i in s.tasks ==> TaskOk(site, s, newest, s.tasks[i]);
      }
    }
  }

  lemma {:induction false} RunInv(site: Site, s: State, newest: Other, es: seq<Event>)
    requires Inv(site, s, newest) && Allowed(site, s, es)
    ensures Inv(site, After(site, s, es), newest)
    decreases |es|
  {
    hide Inv, Next, Enabled;
    if |es| > 0 {
      NextInv(site, s, newest, es[0]);
      RunInv(site, Next(site, s, es[0]), newest, es[1..]);
    }
  }

  // ---------------------------------------------------------------- main results

  ghost predicate Reachable(site: Site, others: seq<Other>, s: State) {
    Distinct(others) && exists now, es ::
      Allowed(site, Start(others, now), es) && s == After(site, Start(others, now), es)
  }

  lemma ReachableInv(site: Site, others: seq<Other>, s: State)
    requires Reachable(site, others, s) && |others| > 0
    ensures Inv(site, s, others[|others| - 1])
  {
    hide Allowed, After, Complete;
    var now, es :| Allowed(site, Start(others, now), es) && s == After(site, Start(others, now), es);
    RunInv(site, Start(others, now), others[|others| - 1], es);
  }

  /** In every reachable state the newest old cache is still there, untouched, or the current one holds every asset. */
  lemma AlwaysSomethingToServe(site: Site, others: seq<Other>, s: State)
    requires Reachable(site, others, s) && |others| > 0
    ensures NewestKept(s.others, others[|others| - 1]) || Complete(site, s.current)
  {
    hide Reachable, Complete, TaskOk;
    ReachableInv(site, others, s);
  }

  /**
   Dropping is justified: whenever a task is about to delete the newest old cache, or has decided to delete
   them all, the current cache holds every asset, then and in every state that follows.
   */
  lemma DropsAreJustified(site: Site, others: seq<Other>, s: State, e: Event, es: seq<Event>)
    requires Reachable(site, others, s) && |others| > 0 && Allowed(site, s, [e] + es)
    requires e.DeleteOther? && (e.name == others[|others| - 1].name || s.tasks[e.task].complete)
    ensures Complete(site, s.current) && Complete(site, After(site, s, [e] + es).current)
  {
    hide Reachable, Complete, Next, After;
    ReachableInv(site, others, s);
    assert ([e] + es)[0] == e;
    assert TaskOk(site, s, others[|others| - 1], s.tasks[e.task]);
    CompleteForever(site, s, [e] + es);
  }

  /** A finished activation left exactly the newest old cache, unless the current one became complete. */
  lemma ActivationLeavesTheNewest(site: Site, others: seq<Other>, s: State, i: nat)
    requires Reachable(site, others, s) && |others| > 0 && i in s.tasks && s.tasks[i].Deleting? && s.tasks[i].todo == {}
    ensures s.tasks[i].complete ==> s.others == [] && Complete(site, s.current)
    ensures !s.tasks[i].complete && !s.tasks[i].lazy && !Complete(site, s.current) ==>
              s.others == [others[|others| - 1]]
  {
    hide Reachable, Complete;
    var newest := others[|others| - 1];
    ReachableInv(site, others, s);
    assert TaskOk(site, s, newest, s.tasks[i]);
    if |s.others| > 0 {
      assert s.others[0].name in Names(s.others);
    }
  }

  // ---------------------------------------------------------------- reuse refines download

  /** What a download of `u` brings is the content `u` names, if `u` is versioned. */
  predicate Genuine(content: Url -> nat, u: Url, net: Option<Response>) {
    net.Some? && net.value.ok && Versioned(u) ==> net.value.body == content(u)
  }

  /** The origin answers every versioned URL with the one content it names. */
  predicate GenuineEvent(content: Url -> nat, e: Event) {
    match e
    case InstallAsset(u, net, _) => Genuine(content, u, net)
    case Fill(_, u, net) => Genuine(content, u, net)
    case StoreFetched(u, r) => Genuine(content, u, Some(r))
    case _ => true
  }

  /** The usable copies old caches hold under versioned URLs are the content those URLs name. */
  ghost predicate OldCopiesGenuine(content: Url -> nat, others: seq<Other>) {
    forall k, u | 0 <= k < |others| && Versioned(u) ::
      var r := Match(others[k].cache, u, false);
      r.Some? && Usable(r.value) ==> r.value.body == content(u)
  }

  ghost predicate CurrentGenuine(content: Url -> nat, c: Cache) {
    forall u | Versioned(u) :: var r := Match(c, u, false); r.Some? ==> r.value.ok && r.value.body == content(u)
  }

  /** Cache `k` answers with a usable response and none before it does. */
  predicate UsableFirst(others: seq<Other>, k: nat, u: Url) {
    k < |others| && UsableAt(others, k, u) && forall j | 0 <= j < k :: !UsableAt(others, j, u)
  }

  predicate UsableAt(others: seq<Other>, k: nat, u: Url)
    requires k < |others|
  {
    var own := Match(others[k].cache, u, false);
    own.Some? && own.value.ok && !own.value.redirected
  }

  /** The copy install takes is the first usable one, and exists exactly when some old cache has one. */
  lemma {:induction false} ReusableIsFirst(others: seq<Other>, u: Url)
    ensures Reusable(others, u).Some? <==> exists k: nat | k < |others| :: UsableAt(others, k, u)
    ensures Reusable(others, u).Some? ==>
              exists k: nat :: UsableFirst(others, k, u) && Match(others[k].cache, u, false) == Reusable(others, u)
  {
    hide Match;
    if |others| > 0 {
      if UsableAt(others, 0, u) {
        assert UsableFirst(others, 0, u);
      } else {
        ReusableIsFirst(others[1..], u);
        assert forall k: nat | 0 < k < |others| :: UsableAt(others, k, u) <==> UsableAt(others[1..], k - 1, u);
        if k: nat :| k < |others[1..]| && UsableAt(others[1..], k, u) {
          assert UsableAt(others, k + 1, u);
        }
        if Reusable(others, u).Some? {
          var k: nat :| UsableFirst(others[1..], k, u) &&
                        Match(others[1..][k].cache, u, false) == Reusable(others[1..], u);
          assert UsableFirst(others, k + 1, u);
        }
      }
    }
  }

  lemma SourceGenuine(content: Url -> nat, others: seq<Other>, u: Url, net: Option<Response>)
    requires OldCopiesGenuine(content, others) && Genuine(content, u, net) && Versioned(u) &&
             Source(others, u, net).Some?
    ensures Source(others, u, net).value.ok && Source(others, u, net).value.body == content(u)
  {
    hide Match, Versioned;
    ReusableIsFirst(others, u);
  }

  lemma PutGenuine(content: Url -> nat, c: Cache, u: Url, r: Response)
    requires CurrentGenuine(content, c) && (Versioned(u) ==> r.ok && r.body == content(u))
    ensures CurrentGenuine(content, Put(c, u, r))
  {
    hide Match, Put, Versioned;
    forall x | Versioned(x)
      ensures var m := Match(Put(c, u, r), x, false); m.Some? ==> m.value.ok && m.value.body == content(x)
    {
      PutMatch(c, u, r, x);
    }
  }

  lemma ShellIsNotVersioned()
    ensures !Versioned(SHELL)
  {
    assert SHELL[|SHELL| - 5] == '.';
    TagStartsAt(SHELL, |SHELL| - 4);
    assert SHELL[..|SHELL| - 4] == "./index.";
  }

  lemma {:induction false} DropKeeps(others: seq<Other>, name: nat, o: Other)
    requires o in Drop(others, name)
    ensures o in others
  {
    if |others| > 0 && !(others[0].name != name && o == others[0]) {
      DropKeeps(others[1..], name, o);
    }
  }

  lemma DropGenuine(content: Url -> nat, others: seq<Other>, name: nat)
    requires OldCopiesGenuine(content, others)
    ensures OldCopiesGenuine(content, Drop(others, name))
  {
    hide Match, Versioned, Drop;
    var d := Drop(others, name);
    forall k, u | 0 <= k < |d| && Versioned(u)
      ensures var r := Match(d[k].cache, u, false); r.Some? && Usable(r.value) ==> r.value.body == content(u)
    {
      DropKeeps(others, name, d[k]);
    }
  }

  lemma NextGenuine(site: Site, content: Url -> nat, s: State, e: Event)
    requires Enabled(site, s, e) && GenuineEvent(content, e) && CurrentGenuine(content, s.current) &&
             OldCopiesGenuine(content, s.others)
    ensures CurrentGenuine(content, Next(site, s, e).current) && OldCopiesGenuine(content, Next(site, s, e).others)
  {
    hide CurrentGenuine, OldCopiesGenuine, Put, Match, Versioned, Source, Drop, Holds;
    match e
    case InstallAsset(u, net, _) => {
      if Source(s.others, u, net).Some? {
        if Versioned(u) {
          SourceGenuine(content, s.others, u, net);
        }
        PutGenuine(content, s.current, u, Source(s.others, u, net).value);
      }
    }
    case Fill(_, u, net) => {
      if net.Some? && net.value.ok {
        PutGenuine(content, s.current, u, net.value);
      }
    }
    case StoreFetched(u, r) => PutGenuine(content, s.current, u, r);
    case StoreShell(r) => {
      ShellIsNotVersioned();
      PutGenuine(content, s.current, SHELL, r);
    }
    case DeleteOther(_, name) => DropGenuine(content, s.others, name);
    case _ =>
  }

  /**
   Reuse refines download: as long as the origin gives each versioned URL the content it names, every versioned
   entry of the current cache is ok and is that content, wherever install took it from.
   */
  lemma {:induction false} ReuseRefinesDownload(site: Site, content: Url -> nat, s: State, es: seq<Event>)
    requires Allowed(site, s, es) && forall e | e in es :: GenuineEvent(content, e)
    requires CurrentGenuine(content, s.current) && OldCopiesGenuine(content, s.others)
    ensures CurrentGenuine(content, After(site, s, es).current)
    decreases |es|
  {
    hide CurrentGenuine, OldCopiesGenuine, GenuineEvent, Next, Enabled;
    if |es| > 0 {
      NextGenuine(site, content, s, es[0]);
      ReuseRefinesDownload(site, content, Next(site, s, es[0]), es[1..]);
    }
  }

  /**
   What install gains without a network: exactly the assets it already holds and the versioned ones some old
   cache answers with an ok, unredirected response.
   */
  lemma OfflineInstallGains(c: Cache, others: seq<Other>, u: Url)
    ensures Holds(InstallOne(c, others, u, None, true), u) <==>
            Holds(c, u) ||
            (Versioned(u) && exists k: nat | k < |others| :: UsableAt(others, k, u))
  {
    hide Match, Put, Holds, Versioned;
    MatchHolds(c, u);
    ReusableIsFirst(others, u);
    if Source(others, u, None).Some? {
      PutMatch(c, u, Source(others, u, None).value, u);
    }
  }
}
