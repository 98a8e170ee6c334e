/**
 Carrying out a previewed repair: recheck, delete, create and confirm remotely, then commit
 locally in one transaction.

 The remote service and the local database are objects whose `faithful` and `quiet` fields
 say whether lookups tell the truth and whether nobody else writes.  A request can also
 fail at any point: unless the service is `reliable`, only the next `patience` requests are
 answered, and one that is not answered may or may not have had its effect.  So the method below
 may stop before, between and after any of its remote steps.
 */
module RepairApply {
  import opened Wrappers
  import opened Titles
  import opened QueueRows
  import opened RepairModel
  import opened RepairResume

  datatype Failure =
    | ServiceRunning
    | HasBlocked
    | LocalChanged
    | TargetChanged
    | RequestFailed
    | StillOwned
    | NotConfirmed
    | OldStillVisible
    | LocalChangedMeanwhile

  datatype Outcome = Applied(updated: nat) | Stopped(reason: Failure)

  datatype MalCache = MalCache(payload: Option<string>, nextDue: int)

  ghost predicate UniqueIds(entries: set<Entry>) {
    forall e <- entries, f <- entries :: e.id == f.id ==> e == f
  }

  class Remote {
    var entries: set<Entry>
    var nextId: nat
    var patience: nat
    var reliable: bool
    const account: string
    const faithful: bool

    ghost predicate Valid()
      reads this
    {
      UniqueIds(entries) && forall e <- entries :: e.id < nextId
    }

    /** The next request gets an answer. */
    predicate Answers()
      reads this
    {
      reliable || patience > 0
    }

    /** GET: the entries of one title. */
    method Lookup(k: Key) returns (ok: bool, found: set<Entry>)
      modifies this`patience
      ensures ok == old(Answers()) && patience <= old(patience)
      ensures ok && faithful ==> found == Titled(entries, k)
    {
      found := *;
      ok := Answers();
      if ok {
        patience := if patience > 0 then patience - 1 else 0;
        if faithful {
          found := Titled(entries, k);
        }
      }
    }

    /** GET: the titles that own one id. */
    method ReverseLookup(media: Media, value: string) returns (ok: bool, found: set<Key>)
      modifies this`patience
      ensures ok == old(Answers()) && patience <= old(patience)
      ensures ok && faithful ==> found == Owners(entries, media, value)
    {
      found := *;
      ok := Answers();
      if ok {
        patience := if patience > 0 then patience - 1 else 0;
        if faithful {
          found := Owners(entries, media, value);
        }
      }
    }

    /** DELETE: only an existing entry of the own account; a failing request may still have had its effect. */
    method Delete(id: nat) returns (ok: bool)
      requires Valid()
      modifies this`entries, this`patience
      ensures Valid() && patience <= old(patience)
      ensures ok <==> old(Answers()) && exists e <- old(entries) :: e.id == id && e.contributor == account
      ensures ok ==> entries == old(entries) - Own(old(entries), id, account)
      ensures !ok ==>
                entries == old(entries)
                  || (!old(Answers()) && entries == old(entries) - Own(old(entries), id, account))
    {
      ok := Answers() && exists e <- entries :: e.id == id && e.contributor == account;
      var answerLost: bool := *;
      if ok || (!Answers() && answerLost) {
        entries := entries - Own(entries, id, account);
      }
      if patience > 0 {
        patience := patience - 1;
      }
    }

    /**
     POST: a new entry of the own account, refused while the id is owned; a failing request may
     still have had its effect.
     */
    method Post(k: Key, value: string) returns (ok: bool, id: nat)
      requires Valid()
      modifies this`entries, this`nextId, this`patience
      ensures Valid() && patience <= old(patience)
      ensures ok <==> old(Answers()) && Owners(old(entries), k.media, value) == {}
      ensures id == old(nextId)
      ensures ok ==> entries == old(entries) + {Entry(id, k, value, account)}
      ensures !ok ==> entries == old(entries)
                      || (!old(Answers()) && Owners(old(entries), k.media, value) == {}
                          && entries == old(entries) + {Entry(id, k, value, account)})
    {
      id := nextId;
      var free := Owners(entries, k.media, value) == {};
      var answerLost: bool := *;
      ok := Answers() && free;
      if ok || (!Answers() && free && answerLost) {
        entries := entries + {Entry(id, k, value, account)};
        nextId := nextId + 1;
      }
      if patience > 0 {
        patience := patience - 1;
      }
    }
  }

  function Own(entries: set<Entry>, id: nat, account: string): set<Entry> {
    set e | e in entries && e.id == id && e.contributor == account
  }

  class Store {
    var local: map<Key, LocalRow>
    var malCache: map<Key, MalCache>
    const quiet: bool

    /** Time passes; other processes may write unless the service really is stopped. */
    method Meanwhile()
      modifies this`local
      ensures quiet ==> local == old(local)
    {
      if !quiet {
        local := *;
      }
    }
  }

  // ---------- what a truthful preview guarantees ----------

  ghost predicate RowSound(ready: map<Key, ReadyRow>, r0: set<Entry>, contributor: string, k: Key)
    requires k in ready
  {
    var row := ready[k];
    && row.fix.key == k && row.fix.oldId != row.fix.newId
    && row.delete == Of(r0, k, row.fix.oldId)
    && row.create == (Of(r0, k, row.fix.newId) == {})
    && (forall e <- row.delete :: e.contributor == contributor)
    && (row.create ==>
       forall o <- Owners(r0, k.media, row.fix.newId) :: o in ready && ready[o].fix.oldId == row.fix.newId)
  }

  ghost predicate Sound(ready: map<Key, ReadyRow>, r0: set<Entry>, contributor: string) {
    && (forall k <- ready :: RowSound(ready, r0, contributor, k))
    && (forall k <- ready, o <- ready :: o.media == k.media && ready[o].fix.newId == ready[k].fix.newId ==> o == k)
  }

  lemma PreviewIsSound(db: Db, r0: set<Entry>, plan: seq<Correction>, contributor: string)
    requires ValidPlan(plan)
    ensures Sound(Ready(db, ViewOf(r0), plan, contributor), r0, contributor)
  {
    hide Classify, Candidates, ReadyKeys;
    var rows := Candidates(db, ViewOf(r0), plan, contributor);
    var ready := Ready(db, ViewOf(r0), plan, contributor);
    ReadyRows(db, r0, plan, contributor);
    forall k | k in ready
      ensures RowSound(ready, r0, contributor, k)
      ensures !SharesTarget(rows, k)
    {
      CandidateRow(db, r0, plan, contributor, k);
      assert !Clashes(db, rows, ready.Keys, k);
      if ready[k].create {
        OwnsIffHolds(r0, k, ready[k].fix.newId);
        forall o | o in Owners(r0, k.media, ready[k].fix.newId)
          ensures o in ready && ready[o].fix.oldId == ready[k].fix.newId
        {
          assert o !in ExternalRemote(rows, ready.Keys, k);
        }
      }
    }
  }

  /** The state between the last deletion and the local commit. */
  ghost predicate Creating(ready: map<Key, ReadyRow>, r0: set<Entry>, now: set<Entry>, account: string) {
    && (forall e <- r0 :: e in now <==> !IsPlanned(ready, e))
    && (forall e <- now - r0 :: IsCreation(ready, e, account))
  }

  /** Whoever owns an id that is still to be created is about to lose it. */
  lemma OldOwnerGivesUp(ready: map<Key, ReadyRow>, r0: set<Entry>, contributor: string, k: Key, e: Entry)
    requires Sound(ready, r0, contributor) && k in ready && ready[k].create
    requires e in r0 && e.title.media == k.media && e.value == ready[k].fix.newId
    ensures IsPlanned(ready, e)
  {
    assert RowSound(ready, r0, contributor, k);
    assert e.title in Owners(r0, k.media, e.value);
    assert RowSound(ready, r0, contributor, e.title);
  }

  /** Chains and swap cycles of any length: once the deletions are done, an id to be created is owned by nobody else. */
  lemma TargetIsFree(
    ready: map<Key, ReadyRow>, r0: set<Entry>, now: set<Entry>, contributor: string, account: string, k: Key)
    requires Sound(ready, r0, contributor) && Creating(ready, r0, now, account) && k in ready
    ensures ready[k].create ==> Owners(now, k.media, ready[k].fix.newId) <= {k}
    ensures k in Owners(now, k.media, ready[k].fix.newId)
            <==> !ready[k].create || Claims(now, k, ready[k].fix.newId, account)
  {
    assert RowSound(ready, r0, contributor, k);
    var value := ready[k].fix.newId;
    OwnsIffHolds(now, k, value);
    if ready[k].create {
      forall o | o in Owners(now, k.media, value)
        ensures o == k
      {
        var e := OwnerEntry(now, k.media, value, o);
        if e in r0 {
          OldOwnerGivesUp(ready, r0, contributor, k, e);
        }
        assert e in now - r0;
      }
      if e :| e in Of(now, k, value) {
        assert e !in Of(r0, k, value);
        assert e in now - r0;
      }
      if e :| e in now && e.title == k && e.value == value && e.contributor == account {
        assert e in Of(now, k, value);
      }
    } else {
      var e :| e in Of(r0, k, value);
      assert e in Of(now, k, value);
    }
  }

  // ---------- the phases ----------

  /** The rows of a report in its own order. */
  ghost predicate Enumerates(order: seq<Key>, ready: map<Key, ReadyRow>) {
    && (forall k :: k in order <==> k in ready)
    && forall i, j :: 0 <= i < j < |order| ==> order[i] != order[j]
  }

  ghost predicate LocalAsPreviewed(local: map<Key, LocalRow>, ready: map<Key, ReadyRow>) {
    forall k <- ready :: k in local && local[k] == ready[k].localBefore
  }

  method RecheckLocal(store: Store, ready: map<Key, ReadyRow>, order: seq<Key>) returns (ok: bool)
    requires Enumerates(order, ready)
    ensures ok <==> LocalAsPreviewed(store.local, ready)
  {
    for i := 0 to |order|
      invariant forall j :: 0 <= j < i ==>
                  order[j] in store.local && store.local[order[j]] == ready[order[j]].localBefore
    {
      var k := order[i];
      if k !in store.local || store.local[k] != ready[k].localBefore {
        return false;
      }
    }
    return true;
  }

  /** All deletion targets are looked up again before the first one is deleted. */
  method VerifyTargets(remote: Remote, ready: map<Key, ReadyRow>, order: seq<Key>, contributor: string)
    returns (failure: Option<Failure>)
    requires Enumerates(order, ready)
    modifies remote`patience
    ensures failure in {None, Some(RequestFailed), Some(TargetChanged)}
    ensures failure == Some(RequestFailed) ==> !remote.Answers()
    ensures remote.faithful && Sound(ready, remote.entries, contributor) ==> failure != Some(TargetChanged)
    ensures remote.faithful && failure.None? ==>
              forall k <- ready :: TargetsVisible(Titled(remote.entries, k), ready[k], contributor)
  {
    for i := 0 to |order|
      invariant remote.faithful ==>
          forall j :: 0 <= j < i ==> TargetsVisible(Titled(remote.entries, order[j]), ready[order[j]], contributor)
    {
      var k := order[i];
      if Sound(ready, remote.entries, contributor) {
        SoundTargetsVisible(ready, remote.entries, contributor, k);
      }
      var ok, live := remote.Lookup(k);
      if !ok {
        return Some(RequestFailed);
      }
      if exists d <- ready[k].delete :: forall e <- live ::
           e.id != d.id || e.value != ready[k].fix.oldId || e.contributor != contributor {
        return Some(TargetChanged);
      }
    }
    return None;
  }

  function Titled(entries: set<Entry>, k: Key): set<Entry> {
    set e | e in entries && e.title == k
  }

  ghost predicate AllVisible(ready: map<Key, ReadyRow>, entries: set<Entry>, contributor: string) {
    forall k <- ready :: TargetsVisible(Titled(entries, k), ready[k], contributor)
  }

  /** Each deletion target is among the live entries, with the expected value and contributor. */
  ghost predicate TargetsVisible(live: set<Entry>, row: ReadyRow, contributor: string) {
    forall d <- row.delete ::
      exists e <- live :: e.id == d.id && e.value == row.fix.oldId && e.contributor == contributor
  }

  lemma SoundTargetsVisible(ready: map<Key, ReadyRow>, r0: set<Entry>, contributor: string, k: Key)
    requires Sound(ready, r0, contributor) && k in ready
    ensures TargetsVisible(Titled(r0, k), ready[k], contributor)
  {
    assert RowSound(ready, r0, contributor, k);
    forall d | d in ready[k].delete
      ensures exists e <- Titled(r0, k) :: e.id == d.id && e.value == ready[k].fix.oldId && e.contributor == contributor
    {
      assert d in Titled(r0, k);
    }
  }

  method DeleteRow(remote: Remote, deletes: set<Entry>) returns (ok: bool)
    requires remote.Valid()
    modifies remote`entries, remote`patience
    ensures remote.Valid()
    ensures forall e <- old(remote.entries) - remote.entries ::
              e.contributor == remote.account && exists d <- deletes :: d.id == e.id
    ensures remote.entries <= old(remote.entries)
    ensures deletes <= old(remote.entries) ==> old(remote.entries) - remote.entries <= deletes
    ensures ok && deletes <= old(remote.entries) ==> remote.entries == old(remote.entries) - deletes
    ensures !ok && deletes <= old(remote.entries) && (forall d <- deletes :: d.contributor == remote.account)
      ==> !remote.Answers()
  {
    var pending := deletes;
    while pending != {}
      invariant remote.Valid() && pending <= deletes && remote.entries <= old(remote.entries)
      invariant forall e <- old(remote.entries) - remote.entries ::
                  e.contributor == remote.account && exists d <- deletes :: d.id == e.id
      invariant deletes <= old(remote.entries) ==> remote.entries == old(remote.entries) - (deletes - pending)
      decreases pending
    {
      var d :| d in pending;
      assert deletes <= old(remote.entries) ==> d in remote.entries;
      ok := remote.Delete(d.id);
      if !ok {
        return;
      }
      pending := pending - {d};
    }
    return true;
  }

  /** All deletions come before the first creation. */
  method DeleteAll(
    remote: Remote, ready: map<Key, ReadyRow>, order: seq<Key>, ghost contributor: string)
    returns (ok: bool)
    requires Enumerates(order, ready) && remote.Valid()
    modifies remote`entries, remote`patience
    ensures remote.Valid()
    ensures DeletesOnlyPlanned(ready, old(remote.entries), remote.entries, remote.account)
    ensures remote.entries <= old(remote.entries)
    ensures Sound(ready, old(remote.entries), contributor) ==>
              && Progress(ready, old(remote.entries), remote.entries, remote.account)
              && (ok ==> Creating(ready, old(remote.entries), remote.entries, remote.account))
              && (!ok && contributor == remote.account ==> !remote.Answers())
  {
    for i := 0 to |order|
      invariant remote.Valid()
      invariant DeletesOnlyPlanned(ready, old(remote.entries), remote.entries, remote.account)
      invariant Sound(ready, old(remote.entries), contributor) ==>
          DeletedUpTo(ready, old(remote.entries), remote.entries, order, i)
    {
      hide Sound, DeletesOnlyPlanned, DeletedUpTo, Progress, Creating;
      var k := order[i];
      ghost var r0, before := old(remote.entries), remote.entries;
      if Sound(ready, r0, contributor) {
        RowStillThere(ready, r0, before, contributor, order, i);
      }
      ok := DeleteRow(remote, ready[k].delete);
      DeletesCompose(ready, r0, before, remote.entries, remote.account, k);
      if Sound(ready, r0, contributor) {
        RowDeleted(ready, r0, before, remote.entries, remote.account, contributor, order, i);
      }
      if !ok {
        return;
      }
    }
    if Sound(ready, old(remote.entries), contributor) {
      AllDeleted(ready, old(remote.entries), remote.entries, remote.account, contributor, order);
    }
    return true;
  }

  /** Whatever the lookups said: nothing but entries named in the report leaves, and only one's own. */
  ghost predicate DeletesOnlyPlanned(
    ready: map<Key, ReadyRow>, before: set<Entry>, after: set<Entry>, account: string)
  {
    && after <= before
    && forall e <- before - after ::
         e.contributor == account && exists k <- ready :: exists d <- ready[k].delete :: d.id == e.id
  }

  ghost predicate DeletedUpTo(ready: map<Key, ReadyRow>, r0: set<Entry>, now: set<Entry>, order: seq<Key>, i: nat)
    requires i <= |order|
  {
    && now <= r0
    && forall e <- r0 :: e in now <==> !(e.title in order[..i] && IsPlanned(ready, e))
  }

  lemma RowStillThere(
    ready: map<Key, ReadyRow>, r0: set<Entry>, now: set<Entry>, contributor: string, order: seq<Key>, i: nat)
    requires Sound(ready, r0, contributor) && Enumerates(order, ready) && i < |order|
    requires DeletedUpTo(ready, r0, now, order, i)
    ensures ready[order[i]].delete <= now
  {
    assert RowSound(ready, r0, contributor, order[i]);
    assert order[i] !in order[..i];
  }

  lemma DeletesCompose(
    ready: map<Key, ReadyRow>, r0: set<Entry>, before: set<Entry>, after: set<Entry>, account: string, k: Key)
    requires DeletesOnlyPlanned(ready, r0, before, account) && k in ready && after <= before
    requires forall e <- before - after :: e.contributor == account && exists d <- ready[k].delete :: d.id == e.id
    ensures DeletesOnlyPlanned(ready, r0, after, account)
  {}

  lemma RowDeleted(
    ready: map<Key, ReadyRow>, r0: set<Entry>, before: set<Entry>, after: set<Entry>,
    account: string, contributor: string, order: seq<Key>, i: nat)
    requires Sound(ready, r0, contributor) && Enumerates(order, ready) && i < |order|
    requires DeletedUpTo(ready, r0, before, order, i)
    requires after <= before && before - after <= ready[order[i]].delete
    ensures Progress(ready, r0, after, account)
    ensures after == before - ready[order[i]].delete ==> DeletedUpTo(ready, r0, after, order, i + 1)
    ensures forall d <- ready[order[i]].delete :: d.contributor == contributor
  {
    var k := order[i];
    assert RowSound(ready, r0, contributor, k);
    assert order[..i + 1] == order[..i] + [k];
    forall e | e in r0 - after
      ensures IsPlanned(ready, e)
    {
      assert e !in before || e in before - after;
    }
  }

  lemma AllDeleted(
    ready: map<Key, ReadyRow>, r0: set<Entry>, now: set<Entry>, account: string, contributor: string, order: seq<Key>)
    requires Sound(ready, r0, contributor) && Enumerates(order, ready)
    requires DeletedUpTo(ready, r0, now, order, |order|)
    ensures Progress(ready, r0, now, account) && Creating(ready, r0, now, account)
  {
    assert order[..|order|] == order;
  }

  /** After the deletions no wrong entry of the contributor is left on a ready title. */
  lemma NoOldLeft(
    ready: map<Key, ReadyRow>, r0: set<Entry>, now: set<Entry>, contributor: string, account: string, k: Key)
    requires Sound(ready, r0, contributor) && Creating(ready, r0, now, account) && k in ready
    ensures forall e <- Titled(now, k) :: e.value != ready[k].fix.oldId
  {
    assert RowSound(ready, r0, contributor, k);
    forall e | e in Titled(now, k)
      ensures e.value != ready[k].fix.oldId
    {
      assert e in r0 || e in now - r0;
    }
  }

  lemma CreatedKeeps(
    ready: map<Key, ReadyRow>, r0: set<Entry>, now: set<Entry>, contributor: string, account: string, e: Entry)
    requires Sound(ready, r0, contributor) && Creating(ready, r0, now, account)
    requires IsCreation(ready, e, account) && e !in now
    ensures Creating(ready, r0, now + {e}, account)
  {
    assert RowSound(ready, r0, contributor, e.title);
    assert e !in r0 by {
      assert e in r0 ==> e in Of(r0, e.title, e.value);
    }
  }

  method CreateOne(
    remote: Remote, fix: Correction, contributor: string, ghost ready: map<Key, ReadyRow>, ghost r0: set<Entry>)
    returns (failure: Option<Failure>, created: Option<nat>)
    requires remote.Valid() && fix.key in ready && ready[fix.key].fix == fix
    modifies remote`entries, remote`nextId, remote`patience
    ensures remote.Valid() && old(remote.entries) <= remote.entries
    ensures forall e <- remote.entries - old(remote.entries) ::
              e.title == fix.key && e.value == fix.newId && e.contributor == remote.account
    ensures failure in {None, Some(RequestFailed), Some(StillOwned), Some(NotConfirmed), Some(OldStillVisible)}
    ensures remote.faithful && Sound(ready, r0, contributor)
            && Creating(ready, r0, old(remote.entries), remote.account) ==>
              && Creating(ready, r0, remote.entries, remote.account)
              && (failure.Some? ==> failure == Some(RequestFailed) && !remote.Answers())
              && (failure.None? && ready[fix.key].create ==> Claims(remote.entries, fix.key, fix.newId, remote.account))
    ensures remote.faithful && failure.None? ==> Confirmed(remote.entries, fix, contributor)
    ensures remote.faithful && old(remote.Answers()) ==>
              var owners := Owners(old(remote.entries), fix.key.media, fix.newId);
              (failure == Some(StillOwned) <==> owners != {} && fix.key !in owners)
    ensures failure == Some(StillOwned) ==> remote.entries == old(remote.entries)
    ensures failure.None? ==>
              match created
              case None => remote.entries == old(remote.entries)
              case Some(id) =>
                var e := Entry(id, fix.key, fix.newId, remote.account);
                e !in old(remote.entries) && remote.entries == old(remote.entries) + {e}
  {
    hide Creating, Sound, Claims;
    created := None;
    ghost var trusted := remote.faithful && Sound(ready, r0, contributor)
                         && Creating(ready, r0, remote.entries, remote.account);
    if trusted {
      TargetIsFree(ready, r0, remote.entries, contributor, remote.account, fix.key);
    }
    var ok, owners := remote.ReverseLookup(fix.key.media, fix.newId);
    if !ok {
      return Some(RequestFailed), None;
    }
    if fix.key !in owners {
      if owners != {} {
        return Some(StillOwned), None;
      }
      ghost var before := remote.entries;
      var id;
      ok, id := remote.Post(fix.key, fix.newId);
      if trusted && remote.entries != before {
        CreatedKeeps(ready, r0, before, contributor, remote.account, Entry(id, fix.key, fix.newId, remote.account));
      }
      if !ok {
        return Some(RequestFailed), None;
      }
      created := Some(id);
    }
    if trusted {
      TargetIsFree(ready, r0, remote.entries, contributor, remote.account, fix.key);
      NoOldLeft(ready, r0, remote.entries, contributor, remote.account, fix.key);
      OwnsIffHolds(remote.entries, fix.key, fix.newId);
    }
    failure := Confirm(remote, fix, contributor);
  }

  method Confirm(remote: Remote, fix: Correction, contributor: string) returns (failure: Option<Failure>)
    modifies remote`patience
    ensures failure in {None, Some(RequestFailed), Some(NotConfirmed), Some(OldStillVisible)}
    ensures failure == Some(RequestFailed) ==> !remote.Answers()
    ensures remote.faithful && old(remote.Answers()) && fix.key !in Owners(remote.entries, fix.key.media, fix.newId) ==>
              failure == Some(NotConfirmed)
    ensures remote.faithful ==>
              && (failure == Some(NotConfirmed) ==> fix.key !in Owners(remote.entries, fix.key.media, fix.newId))
              && (failure == Some(OldStillVisible) ==>
                 exists e <- Titled(remote.entries, fix.key) :: e.value == fix.oldId && e.contributor == contributor)
              && (failure.None? ==> Confirmed(remote.entries, fix, contributor))
  {
    var ok, owners := remote.ReverseLookup(fix.key.media, fix.newId);
    if !ok {
      return Some(RequestFailed);
    }
    if fix.key !in owners {
      return Some(NotConfirmed);
    }
    var live;
    ok, live := remote.Lookup(fix.key);
    if !ok {
      return Some(RequestFailed);
    }
    if exists e <- live :: e.value == fix.oldId && e.contributor == contributor {
      return Some(OldStillVisible);
    }
    return None;
  }

  /** The title owns its new id, and no entry of the contributor has the old one. */
  ghost predicate Confirmed(entries: set<Entry>, fix: Correction, contributor: string) {
    && fix.key in Owners(entries, fix.key.media, fix.newId)
    && forall e <- Titled(entries, fix.key) :: !(e.value == fix.oldId && e.contributor == contributor)
  }

  /** New entries of other titles change nothing about that. */
  lemma ConfirmedStays(before: set<Entry>, after: set<Entry>, fix: Correction, contributor: string)
    requires Confirmed(before, fix, contributor) && before <= after && forall e <- after - before :: e.title != fix.key
    ensures Confirmed(after, fix, contributor)
  {
    OwnsIffHolds(before, fix.key, fix.newId);
    var e :| e in Of(before, fix.key, fix.newId);
    assert e in Of(after, fix.key, fix.newId);
    OwnsIffHolds(after, fix.key, fix.newId);
  }

  ghost predicate ConfirmedUpTo(
    ready: map<Key, ReadyRow>, now: set<Entry>, contributor: string, order: seq<Key>, i: nat)
    requires i <= |order| && forall k <- order :: k in ready
  {
    forall j :: 0 <= j < i ==> Confirmed(now, ready[order[j]].fix, contributor)
  }

  lemma OneMoreConfirmed(
    ready: map<Key, ReadyRow>, before: set<Entry>, after: set<Entry>, contributor: string, order: seq<Key>, i: nat)
    requires Enumerates(order, ready) && (forall k <- ready :: ready[k].fix.key == k) && i < |order|
    requires ConfirmedUpTo(ready, before, contributor, order, i) && before <= after
    requires forall e <- after - before :: e.title == order[i]
    requires Confirmed(after, ready[order[i]].fix, contributor)
    ensures ConfirmedUpTo(ready, after, contributor, order, i + 1)
  {
    hide Confirmed;
    forall j | 0 <= j < i
      ensures Confirmed(after, ready[order[j]].fix, contributor)
    {
      ConfirmedStays(before, after, ready[order[j]].fix, contributor);
    }
  }

  /** Whatever the lookups said: nothing appears but own entries with the new id of a ready title. */
  ghost predicate CreatesOnlyPlanned(
    ready: map<Key, ReadyRow>, before: set<Entry>, after: set<Entry>, account: string)
  {
    && before <= after
    && forall e <- after - before ::
         e.title in ready && e.value == ready[e.title].fix.newId && e.contributor == account
  }

  ghost predicate ClaimedUpTo(ready: map<Key, ReadyRow>, now: set<Entry>, account: string, order: seq<Key>, i: nat)
    requires i <= |order| && forall k <- order :: k in ready
  {
    forall j :: 0 <= j < i && ready[order[j]].create ==> Claims(now, order[j], ready[order[j]].fix.newId, account)
  }

  lemma ClaimsPersist(
    ready: map<Key, ReadyRow>, before: set<Entry>, after: set<Entry>, account: string, order: seq<Key>, i: nat)
    requires i <= |order| && (forall k <- order :: k in ready)
    requires ClaimedUpTo(ready, before, account, order, i) && before <= after
    ensures ClaimedUpTo(ready, after, account, order, i)
  {
    forall j | 0 <= j < i && ready[order[j]].create
      ensures Claims(after, order[j], ready[order[j]].fix.newId, account)
    {
      var e :| e in before && e.title == order[j] && e.value == ready[order[j]].fix.newId && e.contributor == account;
      assert e in after;
    }
  }

  method CreateAll(
    remote: Remote, ready: map<Key, ReadyRow>, order: seq<Key>, contributor: string, ghost r0: set<Entry>)
    returns (failure: Option<Failure>, created: map<Key, nat>)
    requires remote.Valid() && Enumerates(order, ready) && forall k <- ready :: ready[k].fix.key == k
    modifies remote`entries, remote`nextId, remote`patience
    ensures remote.Valid() && CreatesOnlyPlanned(ready, old(remote.entries), remote.entries, remote.account)
    ensures failure in {None, Some(RequestFailed), Some(StillOwned), Some(NotConfirmed), Some(OldStillVisible)}
    ensures remote.faithful && Sound(ready, r0, contributor)
            && Creating(ready, r0, old(remote.entries), remote.account) ==>
              && Creating(ready, r0, remote.entries, remote.account)
              && (failure.Some? ==> failure == Some(RequestFailed) && !remote.Answers())
              && (failure.None? ==> ClaimedUpTo(ready, remote.entries, remote.account, order, |order|))
    ensures failure.None? ==> Records(created, old(remote.entries), remote.entries)
    ensures remote.faithful && failure.None? ==> ConfirmedUpTo(ready, remote.entries, contributor, order, |order|)
  {
    hide Creating, Sound, Claims, ClaimedUpTo, CreatesOnlyPlanned, Records, Confirmed;
    NothingCreated(ready, remote.entries, remote.account);
    NothingRecorded(remote.entries);
    created := map[];
    ghost var trusted := remote.faithful && Sound(ready, r0, contributor)
                         && Creating(ready, r0, remote.entries, remote.account);
    NothingClaimed(ready, remote.entries, remote.account, order);
    for i := 0 to |order|
      invariant remote.Valid() && CreatesOnlyPlanned(ready, old(remote.entries), remote.entries, remote.account)
      invariant trusted ==> Creating(ready, r0, remote.entries, remote.account)
                            && ClaimedUpTo(ready, remote.entries, remote.account, order, i)
      invariant old(remote.entries) <= remote.entries && Records(created, old(remote.entries), remote.entries)
      invariant forall k <- created :: k in order[..i]
      invariant remote.faithful ==> ConfirmedUpTo(ready, remote.entries, contributor, order, i)
    {
      var k := order[i];
      ghost var before := remote.entries;
      var id;
      failure, id := CreateOne(remote, ready[k].fix, contributor, ready, r0);
      CreatesCompose(ready, old(remote.entries), before, remote.entries, remote.account);
      if failure.Some? {
        return failure, created;
      }
      assert k !in order[..i] && order[..i + 1] == order[..i] + [k];
      if remote.faithful {
        OneMoreConfirmed(ready, before, remote.entries, contributor, order, i);
      }
      if id.Some? {
        ghost var e := Entry(id.value, k, ready[k].fix.newId, remote.account);
        OneMoreRecorded(created, old(remote.entries), before, e);
        created := created[k := id.value];
      }
      if trusted {
        ClaimsPersist(ready, before, remote.entries, remote.account, order, i);
        NextClaimed(ready, remote.entries, remote.account, order, i);
      }
    }
    failure := None;
  }

  /** The ids noted for the created entries: one for every title with a new entry, and it is that entry's. */
  ghost predicate Records(created: map<Key, nat>, before: set<Entry>, after: set<Entry>) {
    && (forall e <- after - before :: e.title in created && created[e.title] == e.id)
    && (forall k <- created :: exists e <- after - before :: e.title == k && e.id == created[k])
  }

  lemma NothingRecorded(r0: set<Entry>)
    ensures Records(map[], r0, r0)
  {}

  lemma OneMoreRecorded(created: map<Key, nat>, r0: set<Entry>, now: set<Entry>, e: Entry)
    requires Records(created, r0, now) && r0 <= now && e !in now && e.title !in created
    ensures Records(created[e.title := e.id], r0, now + {e})
  {
    var more, after := created[e.title := e.id], now + {e};
    assert after - r0 == (now - r0) + {e};
    forall k | k in more
      ensures exists f <- after - r0 :: f.title == k && f.id == more[k]
    {
      if k == e.title {
        assert e in after - r0;
      } else {
        var f :| f in now - r0 && f.title == k && f.id == created[k];
        assert f in after - r0;
      }
    }
  }

  /** The entries of the report's first state are no new ones, so the ids noted are those of the new entries. */
  lemma RecordsFromStart(
    ready: map<Key, ReadyRow>, created: map<Key, nat>, r0: set<Entry>, mid: set<Entry>, now: set<Entry>,
    account: string)
    requires Records(created, mid, now) && mid <= r0
    requires Creating(ready, r0, mid, account) && Creating(ready, r0, now, account)
    ensures Records(created, r0, now)
  {
    assert now - mid == now - r0;
  }

  lemma CreatesCompose(
    ready: map<Key, ReadyRow>, r0: set<Entry>, before: set<Entry>, after: set<Entry>, account: string)
    requires CreatesOnlyPlanned(ready, r0, before, account) && CreatesOnlyPlanned(ready, before, after, account)
    ensures CreatesOnlyPlanned(ready, r0, after, account)
  {}

  lemma NothingClaimed(ready: map<Key, ReadyRow>, now: set<Entry>, account: string, order: seq<Key>)
    requires forall k <- order :: k in ready
    ensures ClaimedUpTo(ready, now, account, order, 0)
  {}

  lemma NextClaimed(ready: map<Key, ReadyRow>, now: set<Entry>, account: string, order: seq<Key>, i: nat)
    requires i < |order| && (forall k <- order :: k in ready) && ClaimedUpTo(ready, now, account, order, i)
    requires ready[order[i]].create ==> Claims(now, order[i], ready[order[i]].fix.newId, account)
    ensures ClaimedUpTo(ready, now, account, order, i + 1)
  {}

  /** Repaired titles lose their cached MAL answer and become due at once. */
  ghost function Refetched(malCache: map<Key, MalCache>, rows: map<Key, ReadyRow>): map<Key, MalCache> {
    map k | k in malCache :: if k in rows then MalCache(None, 0) else malCache[k]
  }

  /** One transaction: all ready titles, or none when a row no longer is what preview saw. */
  method Commit(
    store: Store, ready: map<Key, ReadyRow>, order: seq<Key>, created: map<Key, nat>, now: int)
    returns (ok: bool)
    requires Enumerates(order, ready)
    modifies store`local, store`malCache
    ensures ok <==> LocalAsPreviewed(old(store.local), ready)
    ensures ok ==> store.local == Committed(old(store.local), ready, created, now)
    ensures ok ==> store.malCache == Refetched(old(store.malCache), ready)
    ensures !ok ==> store.local == old(store.local) && store.malCache == old(store.malCache)
  {
    hide Repaired, Committed, Refetched, Only;
    var local, malCache := store.local, store.malCache;
    ghost var done: set<Key> := {};
    NothingCommitted(store.local, store.malCache, ready, created, now);
    for i := 0 to |order|
      invariant store.local == old(store.local) && store.malCache == old(store.malCache)
      invariant done == set j | 0 <= j < i :: order[j]
      invariant forall k <- done :: k in store.local && store.local[k] == ready[k].localBefore
      invariant local == Committed(store.local, Only(ready, done), created, now)
      invariant malCache == Refetched(store.malCache, Only(ready, done))
      invariant local.Keys == store.local.Keys && malCache.Keys == store.malCache.Keys
      invariant forall k <- local :: k !in done ==> local[k] == store.local[k]
    {
      var k := order[i];
      if k !in local || local[k] != ready[k].localBefore {
        assert k in ready;
        return false;
      }
      OneCommitted(store.local, store.malCache, ready, done, k, created, now);
      var key := ready[k].fix.key;
      var itemId := if key in created then Some(created[key]) else None;
      var repaired := local[k].(
        value := ready[k].fix.newId, itemId := itemId, status := Submitted, claimedAt := None,
        submittedAt := Some(now), attempts := 0, retryAfter := 0, lastError := None);
      RowRepaired(ready[k].fix, created, now, repaired, local[k]);
      local := local[k := repaired];
      if k in malCache {
        malCache := malCache[k := MalCache(None, 0)];
      }
      done := done + {k};
    }
    AllCommitted(ready, done);
    store.local, store.malCache := local, malCache;
    return true;
  }

  ghost function Only(rows: map<Key, ReadyRow>, keys: set<Key>): map<Key, ReadyRow> {
    map k | k in keys && k in rows :: rows[k]
  }

  lemma RowRepaired(fix: Correction, created: map<Key, nat>, now: int, row: LocalRow, before: LocalRow)
    requires row == before.(
               value := fix.newId, itemId := if fix.key in created then Some(created[fix.key]) else None,
               status := Submitted, claimedAt := None, submittedAt := Some(now), attempts := 0, retryAfter := 0,
               lastError := None)
    ensures row == Repaired(fix, created, now)
  {}

  lemma NothingCommitted(
    local: map<Key, LocalRow>, malCache: map<Key, MalCache>, ready: map<Key, ReadyRow>, created: map<Key, nat>,
    now: int)
    ensures Committed(local, Only(ready, {}), created, now) == local
    ensures Refetched(malCache, Only(ready, {})) == malCache
  {}

  lemma OneCommitted(
    local: map<Key, LocalRow>, malCache: map<Key, MalCache>, ready: map<Key, ReadyRow>, done: set<Key>, k: Key,
    created: map<Key, nat>, now: int)
    requires k in local && k in ready
    ensures Committed(local, Only(ready, done + {k}), created, now)
         == Committed(local, Only(ready, done), created, now)[k := Repaired(ready[k].fix, created, now)]
    ensures Refetched(malCache, Only(ready, done + {k})) ==
            if k in malCache then Refetched(malCache, Only(ready, done))[k := MalCache(None, 0)]
            else Refetched(malCache, Only(ready, done))
  {
    hide Repaired;
  }

  lemma AllCommitted(ready: map<Key, ReadyRow>, done: set<Key>)
    requires forall k :: k in done <==> k in ready
    ensures Only(ready, done) == ready
  {}

  // ---------- the whole repair ----------

  /** The report comes from a truthful preview of the present state, and nobody else writes. */
  ghost predicate Trusted(
    remote: Remote, store: Store, ready: map<Key, ReadyRow>, contributor: string, db: Db, plan: seq<Correction>)
    reads remote, store
  {
    && remote.faithful && store.quiet && ValidPlan(plan) && db.local == store.local
    && ready == Ready(db, ViewOf(remote.entries), plan, contributor)
  }

  /**
   The repair.  `db` and `plan` only serve to say what preview the report came from.

   For a trusted report it ends applied, or stopped by a failing request; in both cases the
   remote state is one that a later preview resumes from.  When every request is answered and the
   account is the contributor's, it ends applied, whatever chains and cycles the plan has.  For any
   report, also a stale one, truthful lookups see to it that nothing is deleted unless every
   target is still there, and that nothing is committed unless every ready title was confirmed.
   */
  method Apply(
    remote: Remote, store: Store, ready: map<Key, ReadyRow>, order: seq<Key>, anyBlocked: bool, contributor: string,
    serviceStopped: bool, onlyReady: bool, now: int, ghost db: Db, ghost plan: seq<Correction>)
    returns (result: Outcome, ghost created: map<Key, nat>)
    requires remote.Valid() && Enumerates(order, ready) && forall k <- ready :: ready[k].fix.key == k
    modifies remote`entries, remote`nextId, remote`patience, store`local, store`malCache
    ensures remote.Valid()
    ensures result == Stopped(ServiceRunning) <==> !serviceStopped
    ensures result == Stopped(HasBlocked) <==> serviceStopped && anyBlocked && !onlyReady
    ensures result == Stopped(LocalChanged) <==>
              serviceStopped && (anyBlocked ==> onlyReady) && !LocalAsPreviewed(old(store.local), ready)
    ensures !serviceStopped || (anyBlocked && !onlyReady) || ready == map[]
            || !LocalAsPreviewed(old(store.local), ready) ==>
              remote.entries == old(remote.entries)
    ensures store.quiet && result.Stopped? ==> store.local == old(store.local)
    ensures store.malCache == if result.Applied? then Refetched(old(store.malCache), ready) else old(store.malCache)
    ensures remote.faithful && !AllVisible(ready, old(remote.entries), contributor) ==>
              remote.entries == old(remote.entries)
    ensures remote.faithful && result.Applied? ==>
              forall k <- ready :: Confirmed(remote.entries, ready[k].fix, contributor)
    ensures exists mid :: DeletesOnlyPlanned(ready, old(remote.entries), mid, remote.account)
                          && CreatesOnlyPlanned(ready, mid, remote.entries, remote.account)
    ensures old(Trusted(remote, store, ready, contributor, db, plan)) && serviceStopped
            && !(anyBlocked && !onlyReady) ==>
              && Progress(ready, old(remote.entries), remote.entries, remote.account)
              && (result.Applied? ==>
                    && result.updated == |order|
                    && Completed(ready, old(remote.entries), remote.entries, remote.account)
                    && Records(created, old(remote.entries), remote.entries)
                    && store.local == Committed(old(store.local), ready, created, now))
              && (result.Stopped? ==> result.reason == RequestFailed
                                      && (remote.account == contributor ==> !remote.Answers()))
              && (remote.reliable && remote.account == contributor ==> result.Applied?)
  {
    hide Sound, Progress, Completed, Creating, Ready, DeletesOnlyPlanned, CreatesOnlyPlanned, LocalAsPreviewed,
         ValidPlan;
    hide Committed, Records, Refetched, Confirmed, TargetsVisible;
    ghost var r0, l0 := remote.entries, store.local;
    created := map[];
    NothingDone(ready, r0, remote.account);
    if !serviceStopped {
      return Stopped(ServiceRunning), created;
    }
    if anyBlocked && !onlyReady {
      return Stopped(HasBlocked), created;
    }
    if order == [] {
      NothingToDo(ready, r0, l0, store.malCache, remote.account, now);
      return Applied(0), created;
    }
    assert order[0] in ready;
    ghost var trusted := Trusted(remote, store, ready, contributor, db, plan);
    if trusted {
      PreviewIsSound(db, r0, plan, contributor);
      PreviewSawLocal(db, r0, plan, contributor);
    }
    var same := RecheckLocal(store, ready, order);
    if !same {
      return Stopped(LocalChanged), created;
    }
    var failure := VerifyTargets(remote, ready, order, contributor);
    if failure.Some? {
      return Stopped(failure.value), created;
    }
    var deleted := DeleteAll(remote, ready, order, contributor);
    ghost var mid := remote.entries;
    NothingCreated(ready, mid, remote.account);
    if !deleted {
      return Stopped(RequestFailed), created;
    }
    var ids;
    failure, ids := CreateAll(remote, ready, order, contributor, r0);
    created := ids;
    if trusted {
      CreatingIsProgress(ready, r0, remote.entries, contributor, remote.account);
    }
    if failure.Some? {
      return Stopped(failure.value), created;
    }
    store.Meanwhile();
    var committed := Commit(store, ready, order, ids, now);
    if !committed {
      return Stopped(LocalChangedMeanwhile), created;
    }
    if trusted {
      CreatingIsCompleted(ready, r0, remote.entries, remote.account, order);
      RecordsFromStart(ready, created, r0, mid, remote.entries, remote.account);
    }
    return Applied(|order|), created;
  }

  lemma NothingDone(ready: map<Key, ReadyRow>, r0: set<Entry>, account: string)
    ensures Progress(ready, r0, r0, account)
    ensures DeletesOnlyPlanned(ready, r0, r0, account) && CreatesOnlyPlanned(ready, r0, r0, account)
  {}

  lemma NothingCreated(ready: map<Key, ReadyRow>, r0: set<Entry>, account: string)
    ensures CreatesOnlyPlanned(ready, r0, r0, account)
  {}

  lemma NothingToDo(
    ready: map<Key, ReadyRow>, r0: set<Entry>, local: map<Key, LocalRow>, malCache: map<Key, MalCache>, account: string,
    now: int)
    requires forall k :: k !in ready
    ensures Completed(ready, r0, r0, account) && Records(map[], r0, r0)
    ensures Committed(local, ready, map[], now) == local && Refetched(malCache, ready) == malCache
    ensures LocalAsPreviewed(local, ready)
  {}

  lemma PreviewSawLocal(db: Db, r0: set<Entry>, plan: seq<Correction>, contributor: string)
    requires ValidPlan(plan)
    ensures LocalAsPreviewed(db.local, Ready(db, ViewOf(r0), plan, contributor))
  {
    hide Classify, Candidates, ReadyKeys;
    ReadyRows(db, r0, plan, contributor);
    forall k | k in Ready(db, ViewOf(r0), plan, contributor)
      ensures k in db.local && db.local[k] == Ready(db, ViewOf(r0), plan, contributor)[k].localBefore
    {
      CandidateRow(db, r0, plan, contributor, k);
    }
  }

  lemma CreatingIsProgress(
    ready: map<Key, ReadyRow>, r0: set<Entry>, now: set<Entry>, contributor: string, account: string)
    requires Sound(ready, r0, contributor) && Creating(ready, r0, now, account)
    ensures Progress(ready, r0, now, account)
  {
    forall e | e in now
      ensures !IsPlanned(ready, e)
    {
      if e.title in ready {
        assert RowSound(ready, r0, contributor, e.title);
      }
    }
  }

  lemma CreatingIsCompleted(
    ready: map<Key, ReadyRow>, r0: set<Entry>, now: set<Entry>, account: string, order: seq<Key>)
    requires Enumerates(order, ready) && Creating(ready, r0, now, account)
    requires ClaimedUpTo(ready, now, account, order, |order|)
    ensures Completed(ready, r0, now, account)
  {
    forall k | k in ready && ready[k].create
      ensures Claims(now, k, ready[k].fix.newId, account)
    {
      assert k in order;
    }
  }

  /**
   What a finished repair of a trusted report guarantees: every ready title owns its new id
   remotely, no other title of the media type holds that id locally, and what disappeared are
   exactly the named contributor's entries with the old id of a ready title.
   */
  lemma RepairAchieves(
    db: Db, r0: set<Entry>, final: set<Entry>, plan: seq<Correction>, contributor: string, account: string,
    created: map<Key, nat>, now: int)
    requires ValidPlan(plan)
    requires Completed(Ready(db, ViewOf(r0), plan, contributor), r0, final, account)
    ensures var ready := Ready(db, ViewOf(r0), plan, contributor);
            var local := Committed(db.local, ready, created, now);
            && (forall k <- ready :: k in Owners(final, k.media, ready[k].fix.newId))
            && (forall k <- ready :: k in local && local[k].value == ready[k].fix.newId
                                     && forall o <- local ::
                                          o.media == k.media && local[o].value == ready[k].fix.newId ==> o == k)
            && (forall e <- r0 :: e !in final <==>
                                  e.title in ready && e.value == ready[e.title].fix.oldId)
            && (forall e <- r0 :: e !in final ==> e.contributor == contributor)
  {
    hide Classify, Candidates, ReadyKeys;
    var rows := Candidates(db, ViewOf(r0), plan, contributor);
    var ready := Ready(db, ViewOf(r0), plan, contributor);
    PreviewIsSound(db, r0, plan, contributor);
    ReadyRows(db, r0, plan, contributor);
    forall k | k in ready
      ensures k in Owners(final, k.media, ready[k].fix.newId)
    {
      TargetIsFree(ready, r0, final, contributor, account, k);
    }
    forall k, o | k in ready && o in db.local && o.media == k.media && o != k
      ensures Committed(db.local, ready, created, now)[o].value != ready[k].fix.newId
    {
      SoleLocalOwner(db, rows, ready, k, o);
    }
    forall k | k in ready
      ensures RowSound(ready, r0, contributor, k) && k in db.local
    {
      CandidateRow(db, r0, plan, contributor, k);
    }
  }

  /** The remembered item id is that of the title's new entry, if it got one. */
  ghost predicate NotesEntry(itemId: Option<nat>, k: Key, added: set<Entry>) {
    match itemId
    case Some(id) => (exists e <- added :: e.title == k) && forall e <- added :: e.title == k ==> e.id == id
    case None => forall e <- added :: e.title != k
  }

  /** With the ids that the repair noted, every ready row remembers the entry that was created for it. */
  lemma RepairNotesIds(
    db: Db, r0: set<Entry>, final: set<Entry>, plan: seq<Correction>, contributor: string, created: map<Key, nat>,
    now: int)
    requires ValidPlan(plan) && Records(created, r0, final)
    ensures var ready := Ready(db, ViewOf(r0), plan, contributor);
            var local := Committed(db.local, ready, created, now);
            forall k <- ready :: k in local && NotesEntry(local[k].itemId, k, final - r0)
  {
    hide Classify, Candidates, ReadyKeys;
    var ready := Ready(db, ViewOf(r0), plan, contributor);
    ReadyRows(db, r0, plan, contributor);
    forall k | k in ready
      ensures k in db.local && ready[k].fix.key == k
    {
      CandidateRow(db, r0, plan, contributor, k);
    }
    hide Ready;
  }

  lemma SoleLocalOwner(db: Db, rows: map<Key, ReadyRow>, ready: map<Key, ReadyRow>, k: Key, o: Key)
    requires ready.Keys <= rows.Keys && (forall r <- ready :: ready[r] == rows[r])
    requires Stable(db, rows, ready.Keys)
    requires k in ready && o in db.local && o.media == k.media && o != k
    ensures (if o in ready then ready[o].fix.newId else db.local[o].value) != ready[k].fix.newId
  {
    assert !Clashes(db, rows, ready.Keys, k);
    assert o !in ExternalLocal(db, rows, ready.Keys, k);
    assert !SharesTarget(rows, k);
  }
}
