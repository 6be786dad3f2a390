/** The lifetime methods of the node agent, each proved to make its step. */
module EphemeralServer {
  import opened Common
  import opened EphemeralSteps
  import opened Sorting
  import opened StringOrder

  predicate NotAfter(a: Lab, b: Lab) { !Less(b, a) }

  lemma NotAfterIsOrder()
    ensures IsOrder(NotAfter)
  {
    forall a, b ensures NotAfter(a, b) || NotAfter(b, a) { LessIsStrict(a, b); }
    forall a, b, c | NotAfter(a, b) && NotAfter(b, c) ensures NotAfter(a, c) { LessIsTransitive(a, b, c); }
  }

  class Server {
    var now: nat
    var ephemeral: Lifetimes
    var disk: Lifetimes

    ghost function Abs(): State
      reads this
    {
      State(now, ephemeral, disk)
    }

    constructor (clock: nat, journal: Lifetimes)
      ensures Abs() == State(clock, map[], journal)
    {
      now, ephemeral, disk := clock, map[], journal;
    }

    method Save(ok: bool)
      modifies this`disk
      ensures disk == if ok then ephemeral else old(disk)
    {
      if ok { disk := ephemeral; }
    }

    method NoteEphemeralLease(lab: Lab, owner: string, ttlSeconds: int, ok: bool) returns (noted: bool)
      modifies this`ephemeral, this`disk
      ensures Abs() == NoteStep(old(Abs()), lab, owner, ttlSeconds, ok)
      ensures noted <==> lab != "" && ok
      ensures noted ==>
        && ephemeral == disk == old(ephemeral)[lab := ephemeral[lab]]
        && ephemeral[lab].owner == owner && ephemeral[lab].expires == now + ClampTTL(ttlSeconds) * SECOND
        && (if lab in old(ephemeral) && old(ephemeral)[lab].created != 0 && old(ephemeral)[lab].hard != 0
            then && ephemeral[lab].created == old(ephemeral)[lab].created
                 && ephemeral[lab].hard == old(ephemeral)[lab].hard
            else ephemeral[lab].created == now && ephemeral[lab].hard == now + MAX_LIFETIME)
      ensures !noted ==> ephemeral == old(ephemeral) && disk == old(disk)
    {
      if lab == "" { return false; }
      var before := ephemeral;
      var ttl := ClampTTL(ttlSeconds);
      var lease := Lifetime(owner, ttl, now, now + ttl * SECOND, now + MAX_LIFETIME, false);
      if lab in ephemeral && ephemeral[lab].created != 0 && ephemeral[lab].hard != 0 {
        lease := lease.(created := ephemeral[lab].created, hard := ephemeral[lab].hard);
      }
      ephemeral := ephemeral[lab := lease];
      Save(ok);
      if !ok {
        if lab in before {
          ephemeral := ephemeral[lab := before[lab]];
        } else {
          ephemeral := ephemeral - {lab};
        }
        assert ephemeral == before;
      }
      noted := ok;
    }

    /** A heartbeat, or the release of a lifetime. */
    method RenewEphemeralLease(lab: Lab, owner: string, ttlSeconds: int, release: bool, ok: bool)
      returns (accepted: bool)
      modifies this`ephemeral, this`disk
      ensures Abs() == if release then ReleaseStep(old(Abs()), lab, owner, ok)
                       else RenewStep(old(Abs()), lab, owner, ttlSeconds, ok)
      ensures accepted <==>
        && ok && lab != "" && lab in old(ephemeral)
        && (old(ephemeral)[lab].owner == "" || owner == "" || old(ephemeral)[lab].owner == owner)
        && (release || !Expired(old(ephemeral)[lab], now))
      ensures accepted && release ==> ephemeral == disk == old(ephemeral) - {lab}
      ensures accepted && !release ==>
        && ephemeral == disk == old(ephemeral)[lab := ephemeral[lab]]
        && ephemeral[lab].owner == old(ephemeral)[lab].owner && ephemeral[lab].created == old(ephemeral)[lab].created
        && ephemeral[lab].hard == old(ephemeral)[lab].hard && !ephemeral[lab].restored
        && var asked := if ttlSeconds <= 0 && old(ephemeral)[lab].ttl > 0 then old(ephemeral)[lab].ttl else ttlSeconds;
           var until := now + ClampTTL(asked) * SECOND;
           ephemeral[lab].ttl == ClampTTL(asked)
           && ephemeral[lab].expires == if 0 < ephemeral[lab].hard < until then ephemeral[lab].hard else until
      ensures !accepted ==> ephemeral == old(ephemeral) && disk == old(disk)
    {
      if lab == "" || lab !in ephemeral { return false; }
      var lease := ephemeral[lab];
      if lease.owner != "" && owner != "" && lease.owner != owner { return false; }
      var before := lease;
      if release {
        ephemeral := ephemeral - {lab};
        Save(ok);
        if !ok {
          ephemeral := ephemeral[lab := before];
          assert ephemeral == old(ephemeral);
        }
        return ok;
      }
      if Expired(lease, now) { return false; }
      var ttl := ClampTTL(ttlSeconds);
      if ttlSeconds <= 0 && lease.ttl > 0 {
        ttl := ClampTTL(lease.ttl);
      }
      lease := lease.(ttl := ttl, expires := now + ttl * SECOND);
      if lease.hard != 0 && lease.expires > lease.hard {
        lease := lease.(expires := lease.hard);
      }
      ephemeral := ephemeral[lab := lease.(restored := false)];
      Save(ok);
      if !ok {
        ephemeral := ephemeral[lab := before];
        assert ephemeral == old(ephemeral);
      }
      accepted := ok;
    }

    method ForgetEphemeralLease(lab: Lab, ok: bool) returns (durable: bool)
      modifies this`ephemeral, this`disk
      ensures Abs() == ForgetStep(old(Abs()), lab, ok)
      ensures durable <==> lab !in ephemeral
      ensures durable <==> lab !in old(ephemeral) || ok
      ensures ephemeral == if ok then old(ephemeral) - {lab} else old(ephemeral)
      ensures disk == if ok && lab in old(ephemeral) then ephemeral else old(disk)
    {
      if lab !in ephemeral { return true; }
      var previous := ephemeral[lab];
      ephemeral := ephemeral - {lab};
      Save(ok);
      if !ok {
        ephemeral := ephemeral[lab := previous];
        assert ephemeral == old(ephemeral);
      }
      durable := ok;
    }

    method DropEphemeralLease(lab: Lab, ok: bool)
      modifies this`ephemeral, this`disk
      ensures Abs() == DropStep(old(Abs()), lab, ok)
    {
      if lab !in ephemeral { return; }
      ephemeral := ephemeral - {lab};
      Save(ok);
    }

    /** The lifetimes that have passed, in the order one reclamation pass takes them. */
    method ExpiredEphemeralLabs() returns (labs: seq<Lab>)
      ensures forall lab :: lab in labs <==> lab in ephemeral && Expired(ephemeral[lab], now)
      ensures forall i, j | 0 <= i < j < |labs| :: Less(labs[i], labs[j])
    {
      var found := [];
      var todo := ephemeral.Keys;
      while todo != {}
        invariant todo <= ephemeral.Keys
        invariant forall lab :: lab in found <==>
          lab in ephemeral && lab !in todo && Expired(ephemeral[lab], now)
        invariant Distinct(found)
        decreases todo
      {
        var lab :| lab in todo;
        todo := todo - {lab};
        if Expired(ephemeral[lab], now) { found := found + [lab]; }
      }
      NotAfterIsOrder();
      labs := SortBy(found, NotAfter);
      SameMembers(found, labs);
      StaysDistinct(found, labs);
      forall i, j | 0 <= i < j < |labs| ensures Less(labs[i], labs[j]) {
        LessIsTotal(labs[i], labs[j]);
        assert NotAfter(labs[i], labs[j]);
      }
    }

    // ---------- restart ----------

    /** Reads the journalled lifetimes, giving old ones a ceiling. */
    method LoadLifetimes() returns (migrated: bool)
      requires ephemeral == map[]
      modifies this`ephemeral
      ensures ephemeral == Loaded(disk, now)
      ensures migrated <==> ephemeral != disk
      ensures ephemeral.Keys == disk.Keys
      ensures forall lab :: lab in ephemeral ==>
        ephemeral[lab] == if disk[lab].hard != 0 then disk[lab]
                          else if disk[lab].created != 0 then disk[lab].(hard := disk[lab].created + MAX_LIFETIME)
                          else disk[lab].(hard := now + MAX_LIFETIME)
    {
      migrated := false;
      var todo := disk.Keys;
      while todo != {}
        invariant todo <= disk.Keys && ephemeral.Keys == disk.Keys - todo
        invariant forall lab :: lab in ephemeral ==> ephemeral[lab] == Migrated(disk[lab], now)
        invariant migrated <==> exists lab :: lab in ephemeral && disk[lab].hard == 0
        decreases todo
      {
        var lab :| lab in todo;
        todo := todo - {lab};
        var lease := disk[lab];
        if lease.hard == 0 {
          var anchor := lease.created;
          if anchor == 0 { anchor := now; }
          lease := lease.(hard := anchor + MAX_LIFETIME);
          migrated := true;
        }
        ephemeral := ephemeral[lab := lease];
      }
      MigrationChanges(disk, now);
    }

    /** Gives every disposable topology without a lifetime a bounded one. */
    method RestoreLifetimes(marked: map<Lab, int>) returns (restored: bool)
      modifies this`ephemeral
      ensures ephemeral == WithRestored(old(ephemeral), marked, now)
      ensures restored <==> ephemeral != old(ephemeral)
      ensures ephemeral.Keys == old(ephemeral).Keys + marked.Keys
      ensures forall lab :: lab in old(ephemeral) ==> ephemeral[lab] == old(ephemeral)[lab]
      ensures forall lab :: lab in marked && lab !in old(ephemeral) ==>
        && ephemeral[lab].owner == "" && ephemeral[lab].created == now && ephemeral[lab].restored
        && ephemeral[lab].hard == now + MAX_LIFETIME
        && ephemeral[lab].expires ==
           now + (if ClampTTL(marked[lab]) < RESTART_GRACE_SECONDS then RESTART_GRACE_SECONDS
                  else ClampTTL(marked[lab])) * SECOND
    {
      restored := false;
      var todo := marked.Keys;
      while todo != {}
        invariant todo <= marked.Keys
        invariant ephemeral.Keys == old(ephemeral).Keys + (marked.Keys - todo)
        invariant forall lab :: lab in ephemeral ==>
          ephemeral[lab] == if lab in old(ephemeral) then old(ephemeral)[lab] else Restored(now, marked[lab])
        invariant restored <==> ephemeral.Keys != old(ephemeral).Keys
        decreases todo
      {
        var lab :| lab in todo;
        todo := todo - {lab};
        if lab !in ephemeral {
          var ttl := ClampTTL(marked[lab]);
          if ttl < RESTART_GRACE_SECONDS { ttl := RESTART_GRACE_SECONDS; }
          ephemeral := ephemeral[lab :=
            Lifetime("", ttl, now, now + ttl * SECOND, now + MAX_LIFETIME, true)];
          restored := true;
        }
      }
    }

    method Restart(readable: bool, marked: map<Lab, int>, ok1: bool, ok2: bool)
      modifies this`ephemeral, this`disk
      ensures Abs() == RestartStep(old(Abs()), readable, marked, ok1, ok2)
    {
      ephemeral := map[];
      if readable {
        var migrated := LoadLifetimes();
        if migrated { Save(ok1); }
      }
      var restored := RestoreLifetimes(marked);
      if restored { Save(ok2); }
    }
  }

  lemma MigrationChanges(disk: Lifetimes, now: nat)
    ensures Loaded(disk, now) != disk <==> exists lab :: lab in disk && disk[lab].hard == 0
  {
    if lab :| lab in disk && disk[lab].hard == 0 {
      assert Loaded(disk, now)[lab].hard != 0;
    } else {
      assert Loaded(disk, now) == disk;
    }
  }
}
