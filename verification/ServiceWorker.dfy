/**
 The worker as the object it is (web/sw.js): its handlers one after the other, each a loop over caches.
 A ghost history ties every handler to the interleaved runs, so what holds of those runs holds here.
 */
module ServiceWorker {
  import opened Results
  import opened Caches
  import opened WorkerRuns

  /** What a page gets back. */
  datatype Reply = Served(response: Response) | NetworkError

  lemma {:induction false} AllowedSnoc(site: Site, s: State, es: seq<Event>, e: Event)
    requires Allowed(site, s, es) && Enabled(site, After(site, s, es), e)
    ensures Allowed(site, s, es + [e]) && After(site, s, es + [e]) == Next(site, After(site, s, es), e)
    decreases |es|
  {
    hide Next, Enabled;
    if |es| == 0 {
      assert [e][1..] == [];
    } else {
      assert (es + [e])[1..] == es[1..] + [e];
      AllowedSnoc(site, Next(site, s, es[0]), es[1..], e);
    }
  }

  /** The caches left when those in `gone` are deleted, in order. */
  function Remaining(others: seq<Other>, gone: set<nat>): seq<Other> {
    if |others| == 0 then []
    else (if others[0].name in gone then [] else [others[0]]) + Remaining(others[1..], gone)
  }

  lemma {:induction false} RemainingDrop(others: seq<Other>, gone: set<nat>, name: nat)
    requires name in gone
    ensures Remaining(Drop(others, name), gone - {name}) == Remaining(others, gone)
  {
    if |others| > 0 {
      RemainingDrop(others[1..], gone, name);
      if others[0].name != name {
        var d := [others[0]] + Drop(others[1..], name);
        assert d[1..] == Drop(others[1..], name);
      } else {
        assert Drop(others, name) == Drop(others[1..], name);
      }
    }
  }

  lemma {:induction false} RemainingNone(others: seq<Other>)
    ensures Remaining(others, {}) == others
  {
    if |others| > 0 {
      RemainingNone(others[1..]);
    }
  }

  lemma {:induction false} RemainingAll(others: seq<Other>, gone: set<nat>)
    requires Names(others) <= gone
    ensures Remaining(others, gone) == []
  {
    if |others| > 0 {
      NamesSplit(others);
      RemainingAll(others[1..], gone);
    }
  }

  lemma {:induction false} RemainingLast(others: seq<Other>, gone: set<nat>)
    requires |others| > 0 && Names(others[..|others| - 1]) <= gone && others[|others| - 1].name !in gone
    ensures Remaining(others, gone) == [others[|others| - 1]]
  {
    if |others| > 1 {
      var init := others[..|others| - 1];
      NamesSplit(init);
      assert init[1..] == others[1..][..|others[1..]| - 1];
      RemainingLast(others[1..], gone);
    } else {
      assert Remaining(others[1..], gone) == [];
    }
  }

  lemma LastIsNotBefore(others: seq<Other>)
    requires |others| > 0 && Distinct(others)
    ensures others[|others| - 1].name !in Names(others[..|others| - 1])
  {
  }

  // ---------------------------------------------------------------- lookups

  /** The first of the old caches, oldest first, that answers. */
  function FirstOther(others: seq<Other>, u: Url, ignoreSearch: bool): Option<Response> {
    if |others| == 0 then None
    else if Match(others[0].cache, u, ignoreSearch).Some? then Match(others[0].cache, u, ignoreSearch)
    else FirstOther(others[1..], u, ignoreSearch)
  }

  /** Cache `k` answers and none before it does. */
  predicate AnswersFirst(others: seq<Other>, k: nat, u: Url, ignoreSearch: bool) {
    k < |others| && Match(others[k].cache, u, ignoreSearch).Some? &&
    forall j | 0 <= j < k :: Match(others[j].cache, u, ignoreSearch).None?
  }

  lemma {:induction false} FirstOtherIsFirst(others: seq<Other>, u: Url, ignoreSearch: bool)
    ensures FirstOther(others, u, ignoreSearch).Some? <==>
              exists k | 0 <= k < |others| :: Match(others[k].cache, u, ignoreSearch).Some?
    ensures FirstOther(others, u, ignoreSearch).Some? ==>
              exists k: nat :: AnswersFirst(others, k, u, ignoreSearch) &&
                          FirstOther(others, u, ignoreSearch) == Match(others[k].cache, u, ignoreSearch)
  {
    hide Match;
    if |others| > 0 {
      if Match(others[0].cache, u, ignoreSearch).Some? {
        assert AnswersFirst(others, 0, u, ignoreSearch);
      } else {
        FirstOtherIsFirst(others[1..], u, ignoreSearch);
        assert forall k | 0 < k < |others| :: others[k] == others[1..][k - 1];
        if FirstOther(others, u, ignoreSearch).Some? {
          var k: nat :| AnswersFirst(others[1..], k, u, ignoreSearch) &&
                   FirstOther(others[1..], u, ignoreSearch) == Match(others[1..][k].cache, u, ignoreSearch);
          assert AnswersFirst(others, k + 1, u, ignoreSearch);
        }
      }
    }
  }

  function CurrentFirst(c: Cache, others: seq<Other>, u: Url, ignoreSearch: bool): Option<Response> {
    if Match(c, u, ignoreSearch).Some? then Match(c, u, ignoreSearch) else FirstOther(others, u, ignoreSearch)
  }

  /** The tag may stand anywhere in the URL, and nothing else makes it such a request. */
  lemma AsksVersionLaw(u: Url, before: string, after: string)
    ensures AsksVersion(before + "platho_version_check" + after)
    ensures AsksVersion(u) ==> exists b, a :: u == b + "platho_version_check" + a
  {
    var v := before + "platho_version_check" + after;
    assert v[|before|..] == "platho_version_check" + after;
    if AsksVersion(u) {
      var i :| 0 <= i <= |u| && VERSION_CHECK <= u[i..];
      assert u[i..] == VERSION_CHECK + u[i..][|VERSION_CHECK|..];
      assert u == u[..i] + "platho_version_check" + u[i..][|VERSION_CHECK|..];
    }
  }

  // ---------------------------------------------------------------- what a page may come from

  /** Some cache holds `r` under exactly this URL. */
  ghost predicate HeldAs(c: Cache, others: seq<Other>, u: Url, r: Response) {
    Entry(u, r) in c || exists k | 0 <= k < |others| :: Entry(u, r) in others[k].cache
  }

  /** Some cache holds `r` under some version of this URL. */
  ghost predicate HeldAsVersionOf(c: Cache, others: seq<Other>, u: Url, r: Response) {
    exists x :: SamePage(x, u) && HeldAs(c, others, x, r)
  }

  ghost predicate NoVersionHeld(c: Cache, others: seq<Other>, u: Url) {
    forall r :: !HeldAsVersionOf(c, others, u, r)
  }

  /** The cached answer to a navigation: a page that was not redirected, or the shell with the mark taken off. */
  ghost predicate PageHeld(c: Cache, others: seq<Other>, u: Url, r: Response) {
    !r.redirected &&
    (HeldAsVersionOf(c, others, u, r) ||
     exists shell: Response | shell == Response(r.ok, shell.redirected, r.body) ::
       HeldAs(c, others, "./", shell) || HeldAs(c, others, "./index.html", shell))
  }

  lemma MatchIsHeld(c: Cache, u: Url, ignoreSearch: bool)
    ensures var m := Match(c, u, ignoreSearch);
            if m.Some? then exists x :: Entry(x, m.value) in c && (if ignoreSearch then SamePage(x, u) else x == u)
            else forall e | e in c :: if ignoreSearch then !SamePage(e.url, u) else e.url != u
  {
    hide SamePage;
    forall e | e in c
      ensures Answers(e, u, true) <==> SamePage(e.url, u)
    {
      IgnoringQueryIsSamePage(e, u);
    }
    var m := Match(c, u, ignoreSearch);
    if m.Some? {
      var i :| 0 <= i < |c| && Answers(c[i], u, ignoreSearch) && c[i].response == m.value;
      assert Entry(c[i].url, m.value) in c;
    } else {
      forall e | e in c
        ensures !Answers(e, u, ignoreSearch)
      {
        var i :| 0 <= i < |c| && c[i] == e;
      }
    }
  }

  /** What the current cache or else the old ones answer is held there, and no answer means it is nowhere. */
  lemma CurrentFirstIsHeld(c: Cache, others: seq<Other>, u: Url)
    ensures var own := CurrentFirst(c, others, u, false);
            if own.Some? then HeldAs(c, others, u, own.value) else forall r :: !HeldAs(c, others, u, r)
    ensures var any := CurrentFirst(c, others, u, true);
            if any.Some? then HeldAsVersionOf(c, others, u, any.value) else NoVersionHeld(c, others, u)
  {
    hide Match, SamePage, Answers;
    MatchIsHeld(c, u, false);
    MatchIsHeld(c, u, true);
    FirstOtherIsFirst(others, u, false);
    FirstOtherIsFirst(others, u, true);
    forall k | 0 <= k < |others|
      ensures var m := Match(others[k].cache, u, false);
              if m.Some? then exists x :: Entry(x, m.value) in others[k].cache && x == u
              else forall e | e in others[k].cache :: e.url != u
      ensures var m := Match(others[k].cache, u, true);
              if m.Some? then exists x :: Entry(x, m.value) in others[k].cache && SamePage(x, u)
              else forall e | e in others[k].cache :: !SamePage(e.url, u)
    {
      MatchIsHeld(others[k].cache, u, false);
      MatchIsHeld(others[k].cache, u, true);
    }
    hide FirstOther;
  }

  const ROOT: Url := "./"
  const VERSION_CHECK := "platho_version_check"

  /** The page asking which version is deployed: its URL carries the tag somewhere. */
  predicate AsksVersion(u: Url) {
    exists i | 0 <= i <= |u| :: VERSION_CHECK <= u[i..]
  }

  function Clean(r: Response): Response {
    r.(redirected := false)
  }

  /** The app shell from any cache, with the redirected mark a navigation may not carry taken off. */
  function Shell(c: Cache, others: seq<Other>): Option<Response> {
    var held := if CurrentFirst(c, others, ROOT, false).Some? then CurrentFirst(c, others, ROOT, false)
                else CurrentFirst(c, others, SHELL, false);
    match held
    case Some(r) => Some(Clean(r))
    case None => None
  }

  /** The cached page itself, whatever its version, unless it was redirected; else the shell. */
  function CachedPage(c: Cache, others: seq<Other>, u: Url): Option<Response> {
    var own := CurrentFirst(c, others, u, true);
    if own.Some? && !own.value.redirected then own else Shell(c, others)
  }

  lemma ExactIsVersion(c: Cache, others: seq<Other>, u: Url)
    ensures forall r | HeldAs(c, others, u, r) :: HeldAsVersionOf(c, others, u, r)
  {
    hide HeldAs;
    PathSplits(u);
    assert SamePage(u, u);
  }

  /** A cached page comes from the page's own entries or from the shell's, and none means there is no shell at all. */
  lemma CachedPageIsHeld(c: Cache, others: seq<Other>, u: Url)
    ensures var page := CachedPage(c, others, u);
            if page.Some? then PageHeld(c, others, u, page.value)
            else forall r :: !HeldAs(c, others, "./", r) && !HeldAs(c, others, "./index.html", r)
  {
    hide CurrentFirst, HeldAs, HeldAsVersionOf, NoVersionHeld;
    CurrentFirstIsHeld(c, others, u);
    CurrentFirstIsHeld(c, others, ROOT);
    CurrentFirstIsHeld(c, others, SHELL);
    var root, shell := CurrentFirst(c, others, ROOT, false), CurrentFirst(c, others, SHELL, false);
    if root.Some? {
      assert root.value == Response(Clean(root.value).ok, root.value.redirected, Clean(root.value).body);
    } else if shell.Some? {
      assert shell.value == Response(Clean(shell.value).ok, shell.value.redirected, Clean(shell.value).body);
    }
  }

  /** `c` is `c0` with the ok downloads of `tried` added. */
  ghost predicate FilledBy(c: Cache, c0: Cache, tried: set<Url>, net: Url -> Option<Response>) {
    forall u :: Match(c, u, false) ==
                if u in tried && net(u).Some? && net(u).value.ok then net(u) else Match(c0, u, false)
  }

  lemma MissingAreAssets(site: Site, c: Cache)
    ensures Missing(site, c) <= site.assets
  {
  }

  lemma FillStart(c: Cache, net: Url -> Option<Response>)
    ensures FilledBy(c, c, {}, net)
  {
  }

  lemma FillStep(c: Cache, c0: Cache, tried: set<Url>, net: Url -> Option<Response>, u: Url, c2: Cache)
    requires FilledBy(c, c0, tried, net)
    requires forall x :: Match(c2, x, false) ==
                         if x == u && net(u).Some? && net(u).value.ok then net(u) else Match(c, x, false)
    ensures FilledBy(c2, c0, tried + {u}, net)
  {
    hide Match;
  }

  /** `c` is `c0` with each asset of `tried` installed as if alone. */
  ghost predicate InstalledIn(c: Cache, c0: Cache, others: seq<Other>, tried: set<Url>,
                              net: Url -> Option<Response>, storable: Url -> bool)
  {
    forall u :: Match(c, u, false) ==
                Match(if u in tried then InstallOne(c0, others, u, net(u), storable(u)) else c0, u, false)
  }

  lemma InstallStart(c: Cache, others: seq<Other>, net: Url -> Option<Response>, storable: Url -> bool)
    ensures InstalledIn(c, c, others, {}, net, storable)
  {
  }

  lemma InstallStep(c: Cache, c0: Cache, others: seq<Other>, tried: set<Url>, net: Url -> Option<Response>,
                    storable: Url -> bool, u: Url)
    requires InstalledIn(c, c0, others, tried, net, storable) && u !in tried
    ensures InstalledIn(InstallOne(c, others, u, net(u), storable(u)), c0, others, tried + {u}, net, storable)
  {
    hide Match, InstallOne;
    InstallIsLocal(c, c0, others, u, net(u), storable(u));
  }

  class Worker {
    const site: Site
    ghost const origin: State
    ghost var history: seq<Event>
    var active: bool
    var current: Cache
    var others: seq<Other>
    var tasks: map<nat, Task>
    var next: nat
    var now: nat
    var completionAt: nat

    function View(): State
      reads this
    {
      State(active, current, others, tasks, next, now, completionAt)
    }

    ghost predicate Valid()
      reads this
    {
      Allowed(site, origin, history) && After(site, origin, history) == View() && Distinct(others) &&
      forall i | i in tasks :: i < next
    }

    constructor (site: Site, others: seq<Other>, now: nat)
      requires Distinct(others)
      ensures Valid() && View() == State(false, [], others, map[], 0, now, 0)
      ensures origin == Start(others, now) && this.site == site
    {
      this.site := site;
      origin := Start(others, now);
      history := [];
      active, current, this.others, tasks, next, this.now, completionAt := false, [], others, map[], 0, now, 0;
    }

    ghost method Log(before: State, e: Event)
      requires Allowed(site, origin, history) && After(site, origin, history) == before
      requires Enabled(site, before, e) && View() == Next(site, before, e) && Distinct(others)
      requires forall i | i in tasks :: i < next
      modifies `history
      ensures Valid() && history == old(history) + [e]
    {
      AllowedSnoc(site, origin, history, e);
      history := history + [e];
    }

    // ------------------------------------------------------------- install (225-243)

    method InstallAssetFrom(u: Url, net: Option<Response>, storable: bool)
      requires Valid() && !active && u in site.assets
      modifies `current, `history
      ensures Valid() && current == InstallOne(old(current), others, u, net, storable)
    {
      ghost var before := View();
      var stored := Match(current, u, false).Some?;
      if !stored && Versioned(u) {
        var k := 0;
        while k < |others| && !stored
          invariant 0 <= k <= |others| && history == old(history)
          invariant !stored ==> current == old(current) && Reusable(others, u) == Reusable(others[k..], u)
          invariant stored ==> current == InstallOne(old(current), others, u, net, storable)
        {
          var held := Match(others[k].cache, u, false);
          assert others[k..][1..] == others[k + 1..];
          if held.Some? && held.value.ok && !held.value.redirected {
            if storable {
              current := Put(current, u, held.value);
            }
            stored := true;
          }
          k := k + 1;
        }
      }
      if !stored && net.Some? && net.value.ok && storable {
        current := Put(current, u, net.value);
      }
      Log(before, InstallAsset(u, net, storable));
    }

    /** Every asset ends as if it had been installed alone; nothing else changes. */
    method Install(net: Url -> Option<Response>, storable: Url -> bool)
      requires Valid() && !active
      modifies `current, `history
      ensures Valid() && InstalledIn(current, old(current), others, site.assets, net, storable)
    {
      hide Match, Put, InstallOne, Allowed, After, Valid, InstalledIn;
      var rest := site.assets;
      InstallStart(current, others, net, storable);
      assert site.assets - rest == {};
      while rest != {}
        invariant Valid() && !active && rest <= site.assets
        invariant InstalledIn(current, old(current), others, site.assets - rest, net, storable)
        decreases |rest|
      {
        var u :| u in rest;
        ghost var c := current;
        InstallAssetFrom(u, net(u), storable(u));
        InstallStep(c, old(current), others, site.assets - rest, net, storable, u);
        assert site.assets - (rest - {u}) == site.assets - rest + {u};
        rest := rest - {u};
      }
      assert site.assets - {} == site.assets;
    }

    // ------------------------------------------------------------- filling the current cache

    method FillOne(i: nat, u: Url, net: Option<Response>)
      requires Valid() && i in tasks && tasks[i].Filling? && u in tasks[i].pending
      modifies `current, `tasks, `history
      ensures Valid() && tasks == old(tasks)[i := old(tasks[i]).(pending := old(tasks[i]).pending - {u})]
      ensures forall x :: Match(current, x, false) ==
                if x == u && net.Some? && net.value.ok then net else Match(old(current), x, false)
    {
      hide Match, AddTo, Allowed, After;
      ghost var before := View();
      AddIsLocal(current, u, net);
      current := AddTo(current, u, net);
      tasks := tasks[i := tasks[i].(pending := tasks[i].pending - {u})];
      Log(before, Fill(i, u, net));
    }

    /** Adds what is missing: from scanning to the verdict on completeness. */
    method FillMissing(i: nat, net: Url -> Option<Response>)
      requires Valid() && i in tasks && tasks[i].Scanning?
      modifies `current, `tasks, `history
      ensures Valid() && i in tasks && tasks == old(tasks)[i := tasks[i]]
      ensures tasks[i] == Checked(old(tasks[i]).lazy, old(tasks[i]).keys, Complete(site, current))
      ensures FilledBy(current, old(current), Missing(site, old(current)), net)
    {
      ghost var missing := Missing(site, current);
      hide Match, Allowed, After, Holds, Complete, Valid, FilledBy, Missing, View;
      MissingAreAssets(site, current);
      FillStart(current, net);
      var lazy, keys := tasks[i].lazy, tasks[i].keys;
      StartFilling(i);
      var pending := tasks[i].pending;
      assert missing - pending == {};
      while pending != {}
        invariant Valid() && i in tasks && tasks == old(tasks)[i := Filling(lazy, keys, pending)]
        invariant pending <= missing <= site.assets && FilledBy(current, old(current), missing - pending, net)
        decreases |pending|
      {
        var u :| u in pending;
        ghost var c := current;
        FillOne(i, u, net(u));
        FillStep(c, old(current), missing - pending, net, u, current);
        assert missing - (pending - {u}) == missing - pending + {u};
        pending := pending - {u};
      }
      assert missing - {} == missing;
      SettleFilling(i);
    }

    method StartFilling(i: nat)
      requires Valid() && i in tasks && tasks[i].Scanning?
      modifies `tasks, `history
      ensures Valid()
      ensures tasks == old(tasks)[i := Filling(old(tasks[i]).lazy, old(tasks[i]).keys, Missing(site, current))]
    {
      hide Holds, Allowed, After;
      ghost var before := View();
      tasks := tasks[i := Filling(tasks[i].lazy, tasks[i].keys, Missing(site, current))];
      Log(before, Scan(i));
    }

    method SettleFilling(i: nat)
      requires Valid() && i in tasks && tasks[i].Filling? && tasks[i].pending == {}
      modifies `tasks, `history
      ensures Valid()
      ensures tasks == old(tasks)[i := Checked(old(tasks[i]).lazy, old(tasks[i]).keys, Complete(site, current))]
    {
      hide Complete, Allowed, After;
      ghost var before := View();
      tasks := tasks[i := Checked(tasks[i].lazy, tasks[i].keys, Complete(site, current))];
      Log(before, Settle(i));
    }

    method DeleteAll(i: nat)
      requires Valid() && i in tasks && tasks[i].Deleting?
      modifies `others, `tasks, `history
      ensures Valid() && others == Remaining(old(others), old(tasks[i]).todo)
      ensures i in tasks && tasks[i] == old(tasks[i]).(todo := {})
    {
      var todo := tasks[i].todo;
      RemainingNone(others);
      while todo != {}
        invariant Valid() && i in tasks && tasks[i] == old(tasks[i]).(todo := todo)
        invariant Remaining(others, todo) == Remaining(old(others), old(tasks[i]).todo)
        decreases |todo|
      {
        var name :| name in todo;
        ghost var before := View();
        RemainingDrop(others, todo, name);
        DropNames(others, name);
        others := Drop(others, name);
        todo := todo - {name};
        tasks := tasks[i := tasks[i].(todo := todo)];
        Log(before, DeleteOther(i, name));
      }
      RemainingNone(others);
    }

    // ------------------------------------------------------------- activate (245-261)

    /** Complete: no other cache is left.  Incomplete: of several, exactly the newest is. */
    method Activate(net: Url -> Option<Response>)
      requires Valid() && !active
      modifies this
      ensures Valid() && active
      ensures others == if Complete(site, current) then []
                        else if |old(others)| > 1 then [old(others)[|old(others)| - 1]]
                        else old(others)
      ensures FilledBy(current, old(current), Missing(site, old(current)), net)
    {
      hide Match, Put, Allowed, After, Holds, Complete, Remaining, Missing, Drop, FilledBy;
      ghost var before := View();
      var i := next;
      active, tasks, next := true, tasks[i := Scanning(false, {})], next + 1;
      Log(before, FinishInstall);
      FillMissing(i, net);
      before := View();
      var complete := tasks[i].complete;
      var todo := {};
      if complete {
        todo := Names(others);
        RemainingAll(others, todo);
      } else if |others| > 1 {
        todo := Names(others[..|others| - 1]);
        LastIsNotBefore(others);
        RemainingLast(others, todo);
      } else {
        RemainingNone(others);
      }
      tasks := tasks[i := Deleting(false, complete, todo)];
      Log(before, Decide(i));
      DeleteAll(i);
    }

    // ------------------------------------------------------------- lazy completion (293-309)

    /** Due when an old cache is left and the last attempt is a minute old; drops the rest only when complete. */
    method CompletePrecacheIfNeeded(net: Url -> Option<Response>)
      requires Valid() && active
      modifies this
      ensures Valid() && active
      ensures var due := |old(others)| > 0 && old(now) >= old(completionAt) + 60_000;
              (!due ==> current == old(current) && others == old(others) && completionAt == old(completionAt)) &&
              (due ==> completionAt == old(now) && others == (if Complete(site, current) then [] else old(others)) &&
                       FilledBy(current, old(current), Missing(site, old(current)), net))
    {
      hide Match, Put, Allowed, After, Holds, Complete, Remaining, Missing, Drop, FilledBy;
      if |others| == 0 {
        return;
      }
      if now < completionAt + THROTTLE {
        return;
      }
      ghost var before := View();
      var i, keys := next, Names(others);
      completionAt, tasks, next := now, tasks[i := Scanning(true, keys)], next + 1;
      Log(before, BeginLazy);
      FillMissing(i, net);
      before := View();
      if tasks[i].complete {
        RemainingAll(others, keys);
        tasks := tasks[i := Deleting(true, true, keys)];
        Log(before, Decide(i));
        DeleteAll(i);
      } else {
        tasks := tasks[i := Deleting(true, false, {})];
        Log(before, Decide(i));
      }
    }

    // ------------------------------------------------------------- fetch (273-373)

    method CacheSameOrigin(u: Url, r: Response, storable: bool)
      requires Valid() && active
      modifies `current, `history
      ensures Valid() && current == if r.ok && storable then Put(old(current), u, r) else old(current)
    {
      if r.ok && storable {
        ghost var before := View();
        current := Put(current, u, r);
        Log(before, StoreFetched(u, r));
      }
    }

    /**
     The cache first, the network second, any version of the file last; only an ok answer is stored.
     A version check never sees a cache: it gets what the network says, and stores nothing.
     */
    method CacheFirst(u: Url, net: Option<Response>, storable: bool) returns (reply: Reply)
      requires Valid() && active
      modifies `current, `history
      ensures Valid()
      ensures var held := CurrentFirst(old(current), others, u, false);
              var stale := CurrentFirst(old(current), others, u, true);
              reply == if held.Some? && !AsksVersion(u) then Served(held.value)
                       else if net.Some? && (net.value.ok || AsksVersion(u)) then Served(net.value)
                       else if stale.Some? && !AsksVersion(u) then Served(stale.value)
                       else if net.Some? then Served(net.value)
                       else NetworkError
      ensures var held := CurrentFirst(old(current), others, u, false);
              var stores := !AsksVersion(u) && held.None? && net.Some? && net.value.ok && storable;
              current == if stores then Put(old(current), u, net.value) else old(current)
      ensures reply.Served? && net != Some(reply.response) ==>
                !AsksVersion(u) && HeldAsVersionOf(old(current), others, u, reply.response)
      ensures reply.NetworkError? ==> net.None? && (AsksVersion(u) || NoVersionHeld(old(current), others, u))
      ensures !AsksVersion(u) && (exists r :: HeldAsVersionOf(old(current), others, u, r)) &&
              !(net.Some? && net.value.ok) ==>
                reply.Served? && HeldAsVersionOf(old(current), others, u, reply.response)
      ensures reply.Served? && !AsksVersion(u) && (exists r :: HeldAs(old(current), others, u, r)) ==>
                HeldAs(old(current), others, u, reply.response)
    {
      hide AsksVersion, HeldAsVersionOf, HeldAs, Allowed, After;
      CurrentFirstIsHeld(current, others, u);
      ExactIsVersion(current, others, u);
      if AsksVersion(u) {
        return if net.Some? then Served(net.value) else NetworkError;
      }
      var cached := CurrentFirst(current, others, u, false);
      if cached.Some? {
        return Served(cached.value);
      }
      var stale := CurrentFirst(current, others, u, true);
      if net.Some? {
        if !net.value.ok {
          return Served(stale.GetOr(net.value));
        }
        CacheSameOrigin(u, net.value, storable);
        return Served(net.value);
      }
      reply := if stale.Some? then Served(stale.value) else NetworkError;
    }

    /**
     A navigation: the network when it answers ok, else the cached page, else the shell.  The shell is stored
     only when no cache has one.
     */
    method NavigationResponse(u: Url, net: Option<Response>, storable: bool) returns (reply: Reply)
      requires Valid() && active
      modifies `current, `history
      ensures Valid()
      ensures reply == if net.Some? && net.value.ok then Served(net.value)
                       else if CachedPage(old(current), others, u).Some?
                            then Served(CachedPage(old(current), others, u).value)
                       else if net.Some? then Served(net.value)
                       else NetworkError
      ensures current == if net.Some? && net.value.ok && storable && Shell(old(current), others).None?
                         then Put(old(current), "./index.html", net.value) else old(current)
      ensures reply.Served? && net != Some(reply.response) ==> PageHeld(old(current), others, u, reply.response)
      ensures reply.NetworkError? ==>
                forall r :: !HeldAs(old(current), others, "./", r) && !HeldAs(old(current), others, "./index.html", r)
    {
      hide PageHeld, HeldAs;
      CachedPageIsHeld(current, others, u);
      if net.Some? && net.value.ok {
        if Shell(current, others).None? && storable {
          ghost var before := View();
          current := Put(current, SHELL, net.value);
          Log(before, StoreShell(net.value));
        }
        return Served(net.value);
      }
      var own := CurrentFirst(current, others, u, true);
      if own.Some? && !own.value.redirected {
        return Served(own.value);
      }
      var shell := Shell(current, others);
      if shell.Some? {
        return Served(shell.value);
      }
      reply := if net.Some? then Served(net.value) else NetworkError;
    }
  }

  /** Installing one asset depends on, and changes, only that asset's entry. */
  lemma InstallIsLocal(c: Cache, c0: Cache, others: seq<Other>, u: Url, net: Option<Response>, storable: bool)
    requires Match(c, u, false) == Match(c0, u, false)
    ensures var c2 := InstallOne(c, others, u, net, storable);
            Match(c2, u, false) == Match(InstallOne(c0, others, u, net, storable), u, false) &&
            forall x | x != u :: Match(c2, x, false) == Match(c, x, false)
  {
    hide Match, Put, Versioned;
    if Source(others, u, net).Some? {
      var r := Source(others, u, net).value;
      forall x
        ensures Match(Put(c, u, r), x, false) == (if x == u then Some(r) else Match(c, x, false))
      {
        PutMatch(c, u, r, x);
      }
      PutMatch(c0, u, r, u);
    }
  }

  lemma AddIsLocal(c: Cache, u: Url, net: Option<Response>)
    ensures forall x :: Match(AddTo(c, u, net), x, false) ==
                        if x == u && net.Some? && net.value.ok then net else Match(c, x, false)
  {
    hide Match, Put;
    if net.Some? && net.value.ok {
      forall x
        ensures Match(Put(c, u, net.value), x, false) == (if x == u then net else Match(c, x, false))
      {
        PutMatch(c, u, net.value, x);
      }
    }
  }

  // ---------------------------------------------------------------- over runs

  /** A page served from a cache never carries the redirected mark. */
  lemma CachedPageIsClean(c: Cache, others: seq<Other>, u: Url)
    ensures CachedPage(c, others, u).Some? ==> !CachedPage(c, others, u).value.redirected
  {
    hide CurrentFirst;
  }

  /** When a cached page exists, exactly: some cache has any version of it unredirected first, or a shell. */
  lemma ShellIff(c: Cache, others: seq<Other>)
    ensures Shell(c, others).Some? <==>
            Holds(c, ROOT) || Holds(c, SHELL) ||
            exists k | 0 <= k < |others| ::
              Match(others[k].cache, ROOT, false).Some? || Match(others[k].cache, SHELL, false).Some?
  {
    hide Match, Holds, FirstOther;
    FirstOtherIsFirst(others, ROOT, false);
    FirstOtherIsFirst(others, SHELL, false);
    MatchHolds(c, ROOT);
    MatchHolds(c, SHELL);
  }

  /**
   Offline navigation is always served: if the shell is an asset and the newest cache the worker started
   beside held one, then after every run, every navigation has a page to fall back on.
   */
  lemma OfflineNavigationServed(site: Site, others: seq<Other>, s: State, u: Url)
    requires Reachable(site, others, s) && |others| > 0 && SHELL in site.assets
    requires var newest := others[|others| - 1].cache;
             Match(newest, ROOT, false).Some? || Match(newest, SHELL, false).Some?
    ensures CachedPage(s.current, s.others, u).Some?
  {
    hide Reachable, Match, Holds, CurrentFirst;
    AlwaysSomethingToServe(site, others, s);
    ShellIff(s.current, s.others);
  }
}
