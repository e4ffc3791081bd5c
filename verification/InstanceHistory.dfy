/** What clients read of service instances: every instance, and the hour for which
    a dropped address is refused, are determined by the requests that were
    answered with success. */
module InstanceHistory {
  import opened Replies
  import opened Wrappers
  import opened Instance

  function Read(s: State, address: string): Option<Info> {
    if address in s.infos then Some(s.infos[address]) else None
  }

  /** When the address was dropped, if it has not come back since. */
  function DroppedAt(s: State, address: string): Option<int> {
    if address in s.removed then Some(s.removed[address]) else None
  }


  /** What a request leaves of an address, told from its answer alone. */
  function Entered(was: Option<Info>, r: Request, reply: Reply, address: string): Option<Info> {
    if reply.code != Success || r.info.address != address then was
    else
      match r.op
      case Add(Some(ids)) => Some(r.info.(ids := ids, version := 1))
      case Drop => None
      case Update =>
        if was.None? then None
        else
          var i := was.value;
          Some(Info(i.address, i.namespaceName, i.zoneName, i.servletName, i.ids, i.version + 1,
                    if r.info.status.Some? then r.info.status else i.status,
                    if r.info.color.Some? then r.info.color else i.color,
                    if r.info.env.Some? then r.info.env else i.env,
                    if r.info.weight.Some? then r.info.weight else i.weight))
      case _ => was
  }

  function BuriedBy(was: Option<int>, r: Request, reply: Reply, address: string): Option<int> {
    if reply.code != Success || r.info.address != address then was
    else if r.op.Drop? then Some(r.now)
    else None
  }

  lemma AddReads(s: State, r: Request, address: string)
    requires r.op.Add?
    ensures var (t, reply) := DoAdd(s, r.info, r.op.ids, r.now, r.ok);
            && Read(t, address) == Entered(Read(s, address), r, reply, address)
            && DroppedAt(t, address) == BuriedBy(DroppedAt(s, address), r, reply, address)
  {
    hide Key, NamesKey, File, Buried;
  }

  lemma DropReads(v: Variant, s: State, r: Request, address: string)
    requires r.op.Drop?
    ensures var (t, reply) := DoDrop(v, s, r.info, r.now, r.ok);
            && Read(t, address) == Entered(Read(s, address), r, reply, address)
            && DroppedAt(t, address) == BuriedBy(DroppedAt(s, address), r, reply, address)
  {
    hide Key, NamesKey, Unfile;
  }

  lemma UpdateReads(s: State, r: Request, address: string)
    requires r.op.Update? && (r.info.address in s.infos ==> s.infos[r.info.address].address == r.info.address)
    ensures var (t, reply) := DoUpdate(s, r.info, r.ok);
            && Read(t, address) == Entered(Read(s, address), r, reply, address)
            && DroppedAt(t, address) == BuriedBy(DroppedAt(s, address), r, reply, address)
  {
    hide Key, NamesKey, File;
  }

  lemma StepReads(v: Variant, s: State, r: Request, address: string)
    requires Sound(s)
    ensures var (t, reply) := Apply(v, s, r);
            && Read(t, address) == Entered(Read(s, address), r, reply, address)
            && DroppedAt(t, address) == BuriedBy(DroppedAt(s, address), r, reply, address)
            && t.db == t.infos
  {
    StepKeeps(v, s, r);
    assert r.info.address in s.infos ==> s.infos[r.info.address].address == r.info.address;
    assert Apply(v, s, r).0.db == Apply(v, s, r).0.infos;
    hide Sound, Complete, DoAdd, DoDrop, DoUpdate, Read, DroppedAt, Entered, BuriedBy;
    match r.op
    case Add(_) => AddReads(s, r, address);
    case Drop => DropReads(v, s, r, address);
    case Update => UpdateReads(s, r, address);
  }

  lemma SetFiles(s: State, i: Info, l: Level, key: string)
    ensures var t := SetInfo(s, i).(db := s.db[i.address := i]);
            && t.infos == s.infos[i.address := i]
            && Bucket(t.At(l), key) ==
               if key == Key(l, i) then Bucket(s.At(l), key) + {i.address} else Bucket(s.At(l), key)
  {
    hide Key, NamesKey;
  }

  lemma RemoveUnfiles(v: Variant, s: State, a: string, now: int, l: Level, key: string)
    requires a in s.infos
    ensures Bucket(RemoveInfo(v, s, a, now).At(l), key) ==
            if key != Key(l, s.infos[a]) then Bucket(s.At(l), key)
            else if v.AsWritten? then {}
            else Bucket(s.At(l), key) - {a}
  {
    hide Key, NamesKey;
  }

  /** An add or an update that succeeds files the address under the names of the
      instance; a drop takes it away, and, as written, everything else from under
      the same key. */
  ghost predicate Files(v: Variant, s: State, r: Request, t: State, reply: Reply, l: Level, key: string) {
    var a := r.info.address;
    if reply.code != Success then Bucket(t.At(l), key) == Bucket(s.At(l), key)
    else if r.op.Drop? then
      && a in s.infos
      && Bucket(t.At(l), key) ==
         if key != Key(l, s.infos[a]) then Bucket(s.At(l), key)
         else if v.AsWritten? then {}
         else Bucket(s.At(l), key) - {a}
    else
      && a in t.infos
      && Bucket(t.At(l), key) ==
         if key == Key(l, t.infos[a]) then Bucket(s.At(l), key) + {a} else Bucket(s.At(l), key)
  }

  lemma AddFiles(v: Variant, s: State, r: Request, l: Level, key: string)
    requires r.op.Add?
    ensures var (t, reply) := DoAdd(s, r.info, r.op.ids, r.now, r.ok);
            Files(v, s, r, t, reply, l, key)
  {
    if r.op.ids.Some? {
      SetFiles(s, r.info.(ids := r.op.ids.value, version := 1), l, key);
    }
    hide Key, NamesKey, Bucket, SetInfo, Buried;
  }

  lemma DropFiles(v: Variant, s: State, r: Request, l: Level, key: string)
    requires r.op.Drop?
    ensures var (t, reply) := DoDrop(v, s, r.info, r.now, r.ok);
            Files(v, s, r, t, reply, l, key)
  {
    if r.info.address in s.infos {
      RemoveUnfiles(v, s, r.info.address, r.now, l, key);
    }
    hide Key, NamesKey, Bucket, Unfile;
  }

  lemma UpdateFiles(v: Variant, s: State, r: Request, l: Level, key: string)
    requires r.op.Update? && (r.info.address in s.infos ==> s.infos[r.info.address].address == r.info.address)
    ensures var (t, reply) := DoUpdate(s, r.info, r.ok);
            Files(v, s, r, t, reply, l, key)
  {
    if r.info.address in s.infos {
      SetFiles(s, Updated(s.infos[r.info.address], r.info), l, key);
    }
    hide Key, NamesKey, Bucket, SetInfo;
  }

  /** What the three indexes list under a key. */
  lemma StepFiles(v: Variant, s: State, r: Request, l: Level, key: string)
    requires Sound(s)
    ensures var (t, reply) := Apply(v, s, r);
            Files(v, s, r, t, reply, l, key)
  {
    assert r.info.address in s.infos ==> s.infos[r.info.address].address == r.info.address;
    hide Sound, Files, DoAdd, DoDrop, DoUpdate;
    match r.op
    case Add(_) => AddFiles(v, s, r, l, key);
    case Drop => DropFiles(v, s, r, l, key);
    case Update => UpdateFiles(v, s, r, l, key);
  }

  /** Every answer: an add needs names that the schema knows, an address that is not
      there, and an hour since the address was dropped; the others an address that
      is there; and all of them a store that takes the write. */
  lemma StepAnswers(v: Variant, s: State, r: Request)
    ensures var there := Read(s, r.info.address).Some?;
            var dropped := DroppedAt(s, r.info.address);
            Apply(v, s, r).1 ==
            if r.op.Add? && r.op.ids.None? then Reply(InputParamError, "request invalid")
            else if r.op.Add? && there then Reply(InputParamError, "instance already existed")
            else if r.op.Add? && dropped.Some? && r.now < dropped.value + 3600 then Reply(InputParamError, "removed in 1 hour")
            else if !r.op.Add? && !there then Reply(InputParamError, "address not exist")
            else if !r.ok then Reply(InternalError, "write db fail")
            else Reply(Success, "success")
  {
    hide Key, File, Unfile;
  }

  function History(was: Option<Info>, log: seq<Request>, replies: seq<Reply>, address: string): Option<Info>
    requires |replies| == |log|
    decreases |log|
  {
    if log == [] then was else History(Entered(was, log[0], replies[0], address), log[1..], replies[1..], address)
  }

  function Burials(was: Option<int>, log: seq<Request>, replies: seq<Reply>, address: string): Option<int>
    requires |replies| == |log|
    decreases |log|
  {
    if log == [] then was else Burials(BuriedBy(was, log[0], replies[0], address), log[1..], replies[1..], address)
  }

  lemma {:induction false} RunReads(v: Variant, s: State, log: seq<Request>, address: string)
    requires Sound(s)
    ensures |Run(v, s, log).1| == |log|
    ensures var (t, replies) := Run(v, s, log);
            && Read(t, address) == History(Read(s, address), log, replies, address)
            && DroppedAt(t, address) == Burials(DroppedAt(s, address), log, replies, address)
    decreases |log|
  {
    if log != [] {
      var (t, reply) := Apply(v, s, log[0]);
      StepReads(v, s, log[0], address);
      StepKeeps(v, s, log[0]);
      hide Sound, Complete, Apply, Read, DroppedAt, Entered, BuriedBy;
      RunReads(v, t, log[1..], address);
      var (u, replies) := Run(v, t, log[1..]);
      assert Run(v, s, log).1 == [reply] + replies && ([reply] + replies)[1..] == replies;
    }
  }

  /** Over any run, as written or as intended: an instance reads as the last
      successful add and the updates since have made it, in memory and in the store;
      and an address is refused for the hour after its last successful drop. */
  lemma InstancesAreHistory(v: Variant, log: seq<Request>, address: string)
    ensures |Run(v, INIT, log).1| == |log|
    ensures var (s, replies) := Run(v, INIT, log);
            && Read(s, address) == History(None, log, replies, address)
            && (Read(s, address).Some? <==> address in s.db)
            && (address in s.db ==> Some(s.db[address]) == Read(s, address))
            && DroppedAt(s, address) == Burials(None, log, replies, address)
  {
    InitSound();
    RunReads(v, INIT, log, address);
    RunKeeps(v, INIT, log);
    hide Run, History, Burials;
  }

  lemma InitSound()
    ensures Sound(INIT)
  {
  }
}
