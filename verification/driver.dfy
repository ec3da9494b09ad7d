/**
 The request handler `hvm_del_ioctl` as written: fetch the caller's four request
 words, allocate a zeroed wire block, fill it per request code (measuring and
 staging the OPEN path, staging WRITE data), trap once into the host, copy READ
 data back, and release. Source defects are kept, and the lemmas at the end of
 the module state them.
 */
module Driver {
  import opened Wrappers
  import opened Api
  import opened Ledger
  import opened Kernel

  /** What the first switch leaves: a block ready for the trap, an early error return, or the unrecognised-code return. */
  datatype Marshalled =
    | Ready(block: Args, ledger: seq<Event>, copies: seq<Copy>)
    | Rejected(ret: SWord, ledger: seq<Event>, copies: seq<Copy>)
    | Unsupported

  /** What the second switch leaves: the caller-visible result and its releases and copies. */
  datatype Finish = Finish(ret: SWord, ledger: seq<Event>, copies: seq<Copy>)

  /** The length `strnlen_user` measures for the OPEN path named by the first request word. */
  function PathLen(k: Services, ua: Args): Word
  {
    k.strnlenUser(ua.arg1, HostMaxPath)
  }

  /** The copy of the caller's request words into the kernel succeeds. */
  predicate RequestFetched(k: Services, argp: Word)
  {
    !k.copyFromUserFaults(k.kzalloc(UserArgs), argp, ArgsSize)
  }

  /** The staging copy for a request, with its arguments in the order the handler passes them. */
  function StagingFaults(k: Services, ioctl: Code, ua: Args): bool
  {
    if ioctl == ReqOpen then k.copyFromUserFaults(ua.arg1, k.kzalloc(Buffer), PathLen(k, ua))
    else k.copyFromUserFaults(ua.arg2, k.kzalloc(Buffer), ua.arg3)
  }

  /** A request that passes every check before the trap: fetched, a known code and, for OPEN, a path of acceptable length that was staged. */
  predicate Validated(k: Services, ioctl: Code, argp: Word)
  {
    && RequestFetched(k, argp)
    && IsKnownCode(ioctl)
    && (ioctl == ReqOpen ==>
          var ua := k.userWords(argp);
          PathLenAccepted(PathLen(k, ua)) && !StagingFaults(k, ioctl, ua))
  }

  /** The first switch: validate the request and fill the wire block. */
  function Marshal(k: Services, ioctl: Code, ua: Args): (m: Marshalled)
    ensures m.Unsupported? <==> !IsKnownCode(ioctl)
    ensures m.Rejected? ==> ioctl == ReqOpen && m.ret < 0
    ensures m.Ready? ==> m.block.arg4 == 0
  {
    var buf := k.kzalloc(Buffer);
    if ioctl == ReqOpen then
      var pathLen := PathLen(k, ua);
      if pathLen == 0 then
        Rejected(-EFAULT, [Free(UserArgs), Free(Block)], [])
      else if pathLen > HostMaxPath then
        Rejected(-ENAMETOOLONG, [Free(UserArgs), Free(Block)], [])
      else
        var faulted := k.copyFromUserFaults(ua.arg1, buf, pathLen);
        var stage := FromUser(ua.arg1, buf, pathLen, faulted);
        if faulted then
          Rejected(-EFAULT, [Alloc(Buffer, pathLen), Free(UserArgs), Free(Block), Free(Buffer)], [stage])
        else
          Ready(ZeroArgs.(arg1 := buf, arg2 := ua.arg2, arg3 := ua.arg3), [Alloc(Buffer, pathLen)], [stage])
    else if ioctl == ReqRead then
      Ready(ZeroArgs.(arg1 := ua.arg1, arg2 := buf, arg3 := ua.arg3), [Alloc(Buffer, ua.arg3)], [])
    else if ioctl == ReqWrite then
      var faulted := k.copyFromUserFaults(ua.arg2, buf, ua.arg3);
      var stage := FromUser(ua.arg2, buf, ua.arg3, faulted);
      // The fault branch releases everything but does not return.
      var release := if faulted then [Free(UserArgs), Free(Block), Free(Buffer)] else [];
      Ready(ZeroArgs.(arg1 := ua.arg1, arg2 := buf, arg3 := ua.arg3), [Alloc(Buffer, ua.arg3)] + release, [stage])
    else if ioctl == ReqClose then
      Ready(ZeroArgs.(arg1 := ua.arg1), [], [])
    else
      Unsupported
  }

  /** The second switch: copy READ data back and release the buffer. */
  function Unmarshal(k: Services, ioctl: Code, ua: Args, block: Args, r: SWord): (f: Finish)
    ensures ioctl != ReqRead ==> f.ret == r && f.copies == []
    ensures ioctl == ReqRead ==>
      var faulted := k.copyToUserFaults(ua.arg2, k.kzalloc(Buffer), block.arg3);
      && f.copies == [ToUser(ua.arg2, k.kzalloc(Buffer), block.arg3, faulted)]
      && f.ret == (if faulted then -EFAULT else r)
    ensures forall e | e in f.ledger :: e == Free(Buffer)
    ensures |f.ledger| == (if ioctl == ReqOpen || ioctl == ReqRead || ioctl == ReqWrite then 1 else 0)
  {
    var buf := k.kzalloc(Buffer);
    if ioctl == ReqOpen then
      Finish(r, [Free(Buffer)], [])
    else if ioctl == ReqRead then
      var faulted := k.copyToUserFaults(ua.arg2, buf, block.arg3);
      Finish(if faulted then -EFAULT else r, [Free(Buffer)], [ToUser(ua.arg2, buf, block.arg3, faulted)])
    else if ioctl == ReqWrite then
      Finish(r, [Free(Buffer)], [])
    else
      Finish(r, [], [])
  }

  /** `hvm_del_ioctl(file, ioctl, argp)`. */
  function Ioctl(k: Services, ioctl: Code, argp: Word): (o: Outcome)
    ensures |o.traps| == (if Validated(k, ioctl, argp) then 1 else 0)
    ensures forall t | t in o.traps :: t.port == MagicPort && t.code == ioctl && t.blockPhys == BlockPhys(k)
    ensures o.block.None? <==> !RequestFetched(k, argp)
    ensures o.block.Some? ==> o.block.value.arg4 == 0
    ensures o.traps == [] ==> IsLocalError(o.ret)
    ensures o.trapAt.Some? <==> o.traps != []
    ensures o.trapAt.Some? ==> o.trapAt.value <= |o.ledger|
  {
    var fetchFaulted := k.copyFromUserFaults(k.kzalloc(UserArgs), argp, ArgsSize);
    var fetch := FromUser(k.kzalloc(UserArgs), argp, ArgsSize, fetchFaulted);
    if fetchFaulted then
      Outcome(-EFAULT, [], None, None, [Alloc(UserArgs, ArgsSize), Free(UserArgs)], [fetch])
    else
      var ua := k.userWords(argp);
      var head := [Alloc(UserArgs, ArgsSize), Alloc(Block, ArgsSize)];
      match Marshal(k, ioctl, ua)
      case Unsupported =>
        Outcome(-EINVAL, [], None, Some(ZeroArgs), head, [fetch])
      case Rejected(err, l, c) =>
        Outcome(err, [], None, Some(ZeroArgs), head + l, [fetch] + c)
      case Ready(block, l, c) =>
        var call := TrapCall(MagicPort, ioctl, BlockPhys(k), block);
        var fin := Unmarshal(k, ioctl, ua, block, k.host(call));
        Outcome(fin.ret, [call], Some(|head + l|), Some(block), head + l + fin.ledger + [Free(UserArgs), Free(Block)], [fetch] + c + fin.copies)
  }

  // ---- Replaying the ledger of each path -----------------------------------

  /** The two allocations every fetched request makes leave the request copy and the block live. */
  lemma HeadRun()
    ensures Run({}, [Alloc(UserArgs, ArgsSize), Alloc(Block, ArgsSize)]) == Some({UserArgs, Block})
  {
    var none: set<Obj> := {};
    RunCons(none, Alloc(UserArgs, ArgsSize), [Alloc(Block, ArgsSize)]);
    RunCons({UserArgs}, Alloc(Block, ArgsSize), []);
    assert [Alloc(Block, ArgsSize)] + [] == [Alloc(Block, ArgsSize)];
    assert none + {UserArgs} == {UserArgs};
    assert {UserArgs} + {Block} == {UserArgs, Block};
  }

  /** The closing releases of the request copy and the block, starting from `live`. */
  lemma TailRun(live: set<Obj>)
    ensures Run(live, [Free(UserArgs), Free(Block)]) ==
      if UserArgs in live && Block in live then Some(live - {UserArgs, Block}) else None
  {
    RunCons(live, Free(UserArgs), [Free(Block)]);
    if UserArgs in live {
      RunCons(live - {UserArgs}, Free(Block), []);
      assert [Free(Block)] + [] == [Free(Block)];
      assert live - {UserArgs} - {Block} == live - {UserArgs, Block};
    }
  }

  /** A single allocator event replays as one step. */
  lemma SingleRun(live: set<Obj>, e: Event)
    ensures Run(live, [e]) == Step(live, e)
  {
    RunCons(live, e, []);
    assert [e] + [] == [e];
  }

  /** Allocating and releasing only the request copy. */
  lemma FetchOnlyRun()
    ensures Run({}, [Alloc(UserArgs, ArgsSize), Free(UserArgs)]) == Some({})
  {
    var none: set<Obj> := {};
    RunCons(none, Alloc(UserArgs, ArgsSize), [Free(UserArgs)]);
    SingleRun({UserArgs}, Free(UserArgs));
    assert none + {UserArgs} == {UserArgs};
    assert {UserArgs} - {UserArgs} == none;
  }

  /** After the head: allocating the buffer, then releasing the request copy, the block and the buffer. */
  lemma StagingFaultRun(n: int)
    ensures Run({UserArgs, Block}, [Alloc(Buffer, n), Free(UserArgs), Free(Block), Free(Buffer)]) == Some({})
  {
    var all: set<Obj> := {UserArgs, Block, Buffer};
    RunCons({UserArgs, Block}, Alloc(Buffer, n), [Free(UserArgs), Free(Block), Free(Buffer)]);
    assert {UserArgs, Block} + {Buffer} == all;
    RunAppend(all, [Free(UserArgs), Free(Block)], [Free(Buffer)]);
    assert [Free(UserArgs), Free(Block)] + [Free(Buffer)] == [Free(UserArgs), Free(Block), Free(Buffer)];
    TailRun(all);
    assert all - {UserArgs, Block} == {Buffer};
    SingleRun({Buffer}, Free(Buffer));
    assert {Buffer} - {Buffer} == {};
  }

  /** The ledger of a request that reached the trap, replayed piece by piece. */
  lemma TrappedRun(l: seq<Event>, fin: seq<Event>)
    ensures Run({}, [Alloc(UserArgs, ArgsSize), Alloc(Block, ArgsSize)] + l + fin + [Free(UserArgs), Free(Block)])
      == Then(Then(Run({UserArgs, Block}, l), fin), [Free(UserArgs), Free(Block)])
  {
    var head := [Alloc(UserArgs, ArgsSize), Alloc(Block, ArgsSize)];
    RunAppend({}, head + l + fin, [Free(UserArgs), Free(Block)]);
    RunAppend({}, head + l, fin);
    RunAppend({}, head, l);
    HeadRun();
  }

  // ---- Early returns -------------------------------------------------------

  /** A fault copying the request words: -EFAULT, no trap, and only the request copy was allocated and it is released. */
  lemma RequestFault(k: Services, ioctl: Code, argp: Word)
    requires !RequestFetched(k, argp)
    ensures var o := Ioctl(k, ioctl, argp);
      && o.ret == -EFAULT
      && o.traps == []
      && o.ledger == [Alloc(UserArgs, ArgsSize), Free(UserArgs)]
      && Clean(o.ledger)
  {
    FetchOnlyRun();
  }

  /** OPEN whose path measures 0: -EFAULT, no trap, request copy and wire block both released, no buffer. */
  lemma OpenUnreadablePath(k: Services, argp: Word)
    requires RequestFetched(k, argp)
    requires PathLen(k, k.userWords(argp)) == 0
    ensures var o := Ioctl(k, ReqOpen, argp);
      && o.ret == -EFAULT
      && o.traps == []
      && o.ledger == [Alloc(UserArgs, ArgsSize), Alloc(Block, ArgsSize), Free(UserArgs), Free(Block)]
      && Clean(o.ledger)
      && Allocs(o.ledger, Buffer) == 0
  {
    var head := [Alloc(UserArgs, ArgsSize), Alloc(Block, ArgsSize)];
    var tail := [Free(UserArgs), Free(Block)];
    RunAppend({}, head, tail);
    HeadRun();
    TailRun({UserArgs, Block});
    assert {UserArgs, Block} - {UserArgs, Block} == {};
    CountsAppend(head, tail, Buffer);
  }

  /** OPEN whose path measures above 512: -ENAMETOOLONG, no trap, both blocks released, no buffer. */
  lemma OpenPathTooLong(k: Services, argp: Word)
    requires RequestFetched(k, argp)
    requires PathLen(k, k.userWords(argp)) > HostMaxPath
    ensures var o := Ioctl(k, ReqOpen, argp);
      && o.ret == -ENAMETOOLONG
      && o.traps == []
      && o.ledger == [Alloc(UserArgs, ArgsSize), Alloc(Block, ArgsSize), Free(UserArgs), Free(Block)]
      && Clean(o.ledger)
      && Allocs(o.ledger, Buffer) == 0
  {
    var head := [Alloc(UserArgs, ArgsSize), Alloc(Block, ArgsSize)];
    var tail := [Free(UserArgs), Free(Block)];
    RunAppend({}, head, tail);
    HeadRun();
    TailRun({UserArgs, Block});
    assert {UserArgs, Block} - {UserArgs, Block} == {};
    CountsAppend(head, tail, Buffer);
  }

  /** OPEN whose path length is in 1..512 goes on to allocate a buffer of that length and stage the path into it. */
  lemma OpenPathAccepted(k: Services, argp: Word)
    requires RequestFetched(k, argp)
    requires PathLenAccepted(PathLen(k, k.userWords(argp)))
    ensures var o := Ioctl(k, ReqOpen, argp);
      var ua := k.userWords(argp);
      var n := PathLen(k, ua);
      && |o.ledger| > 2 && o.ledger[2] == Alloc(Buffer, n)
      && |o.copies| > 1 && o.copies[1] == FromUser(ua.arg1, k.kzalloc(Buffer), n, StagingFaults(k, ReqOpen, ua))
  {
  }

  /** A fault staging the OPEN path: -EFAULT, no trap, and all three allocations released. */
  lemma OpenStagingFault(k: Services, argp: Word)
    requires RequestFetched(k, argp)
    requires PathLenAccepted(PathLen(k, k.userWords(argp)))
    requires StagingFaults(k, ReqOpen, k.userWords(argp))
    ensures var o := Ioctl(k, ReqOpen, argp);
      var n := PathLen(k, k.userWords(argp));
      && o.ret == -EFAULT
      && o.traps == []
      && o.ledger == [Alloc(UserArgs, ArgsSize), Alloc(Block, ArgsSize), Alloc(Buffer, n),
                      Free(UserArgs), Free(Block), Free(Buffer)]
      && Allocs(o.ledger, Buffer) == 1
      && Clean(o.ledger)
  {
    var n := PathLen(k, k.userWords(argp));
    var head := [Alloc(UserArgs, ArgsSize), Alloc(Block, ArgsSize)];
    var rest := [Alloc(Buffer, n), Free(UserArgs), Free(Block), Free(Buffer)];
    RunAppend({}, head, rest);
    HeadRun();
    StagingFaultRun(n);
    CountsAppend(head, rest, Buffer);
    CountsCons(Alloc(Buffer, n), rest[1..], Buffer);
    assert [Alloc(Buffer, n)] + rest[1..] == rest;
    ReleasesOnly(rest[1..], Buffer);
  }

  /** An unrecognised request code: -EINVAL and no trap, but the request copy and the block are never released. */
  lemma UnsupportedCodeLeaks(k: Services, ioctl: Code, argp: Word)
    requires RequestFetched(k, argp)
    requires !IsKnownCode(ioctl)
    ensures var o := Ioctl(k, ioctl, argp);
      && o.ret == -EINVAL
      && o.traps == []
      && Run({}, o.ledger) == Some({UserArgs, Block})
      && Leaky(o.ledger)
  {
    HeadRun();
  }

  // ---- Requests that reach the trap ----------------------------------------

  /** The wire-block slots each request code fills; slot 4 is never written. */
  lemma WireLayout(k: Services, ioctl: Code, argp: Word)
    requires Validated(k, ioctl, argp)
    ensures var o := Ioctl(k, ioctl, argp);
      var ua := k.userWords(argp);
      var buf := k.kzalloc(Buffer);
      && o.block.Some?
      && (ioctl == ReqOpen ==> o.block.value == Args(buf, ua.arg2, ua.arg3, 0))
      && (ioctl == ReqRead ==> o.block.value == Args(ua.arg1, buf, ua.arg3, 0))
      && (ioctl == ReqWrite ==> o.block.value == Args(ua.arg1, buf, ua.arg3, 0))
      && (ioctl == ReqClose ==> o.block.value == Args(ua.arg1, 0, 0, 0))
  {
  }

  /** A validated request traps exactly once, passing the block's physical address and the request
      code on the fixed port; OPEN, WRITE and CLOSE return the host's scalar unchanged. */
  lemma SingleTrap(k: Services, ioctl: Code, argp: Word)
    requires Validated(k, ioctl, argp)
    ensures var o := Ioctl(k, ioctl, argp);
      && o.block.Some?
      && o.traps == [TrapCall(MagicPort, ioctl, k.virtToPhys(k.kzalloc(Block)), o.block.value)]
      && (ioctl != ReqRead ==> o.ret == k.host(o.traps[0]))
  {
  }

  /** READ returns the host's scalar unless copying the data back faults, which turns it into -EFAULT;
      either way every allocation is released exactly once. */
  lemma ReadResult(k: Services, argp: Word)
    requires Validated(k, ReqRead, argp)
    ensures var o := Ioctl(k, ReqRead, argp);
      var ua := k.userWords(argp);
      && |o.traps| == 1
      && o.ret == (if k.copyToUserFaults(ua.arg2, k.kzalloc(Buffer), ua.arg3) then -EFAULT else k.host(o.traps[0]))
      && o.ledger == [Alloc(UserArgs, ArgsSize), Alloc(Block, ArgsSize), Alloc(Buffer, ua.arg3),
                      Free(Buffer), Free(UserArgs), Free(Block)]
      && Clean(o.ledger)
  {
    CompletedRequestsClean(k, ReqRead, argp);
  }

  /** Every path that reaches the trap, except a WRITE whose staging faulted, traps while the request
      copy, the block and any buffer are live, and afterwards releases each of them exactly once. */
  lemma CompletedRequestsClean(k: Services, ioctl: Code, argp: Word)
    requires Validated(k, ioctl, argp)
    requires ioctl == ReqWrite ==> !StagingFaults(k, ioctl, k.userWords(argp))
    ensures var o := Ioctl(k, ioctl, argp);
      var ua := k.userWords(argp);
      var n := if ioctl == ReqOpen then PathLen(k, ua) else ua.arg3;
      && o.ledger == (if ioctl == ReqClose
                      then [Alloc(UserArgs, ArgsSize), Alloc(Block, ArgsSize), Free(UserArgs), Free(Block)]
                      else [Alloc(UserArgs, ArgsSize), Alloc(Block, ArgsSize), Alloc(Buffer, n),
                            Free(Buffer), Free(UserArgs), Free(Block)])
      && o.trapAt == Some(if ioctl == ReqClose then 2 else 3)
      && Run({}, o.ledger[..o.trapAt.value]) ==
           Some(if ioctl == ReqClose then {UserArgs, Block} else {UserArgs, Block, Buffer})
      && Clean(o.ledger)
  {
    var o := Ioctl(k, ioctl, argp);
    var ua := k.userWords(argp);
    var m := Marshal(k, ioctl, ua);
    var fin := Unmarshal(k, ioctl, ua, m.block, k.host(TrapCall(MagicPort, ioctl, BlockPhys(k), m.block)));
    TrappedRun(m.ledger, fin.ledger);
    var both: set<Obj> := {UserArgs, Block};
    var head := [Alloc(UserArgs, ArgsSize), Alloc(Block, ArgsSize)];
    HeadRun();
    if ioctl == ReqClose {
      assert m.ledger == [] && fin.ledger == [];
      assert o.ledger[..2] == head;
    } else {
      assert m.ledger == [Alloc(Buffer, m.ledger[0].size)];
      assert fin.ledger == [Free(Buffer)];
      SingleRun(both, m.ledger[0]);
      SingleRun(both + {Buffer}, Free(Buffer));
      assert both + {Buffer} - {Buffer} == both;
      assert o.ledger[..3] == head + m.ledger;
      RunAppend({}, head, m.ledger);
      assert both + {Buffer} == {UserArgs, Block, Buffer};
    }
    TailRun(both);
    assert both - {UserArgs, Block} == {};
  }

  /** Exactly two paths of the code as written do not release everything exactly once: an
      unrecognised code (a leak) and a WRITE whose staging faulted (double releases). */
  lemma CleanExactlyWhen(k: Services, ioctl: Code, argp: Word)
    ensures var o := Ioctl(k, ioctl, argp);
      Clean(o.ledger) <==>
        !(RequestFetched(k, argp) &&
          (!IsKnownCode(ioctl) || (ioctl == ReqWrite && StagingFaults(k, ioctl, k.userWords(argp)))))
  {
    var ua := k.userWords(argp);
    if !RequestFetched(k, argp) {
      RequestFault(k, ioctl, argp);
    } else if !IsKnownCode(ioctl) {
      UnsupportedCodeLeaks(k, ioctl, argp);
    } else if ioctl == ReqWrite && StagingFaults(k, ioctl, ua) {
      WriteStagingFaultDoubleFrees(k, argp);
    } else if ioctl == ReqOpen && PathLen(k, ua) == 0 {
      OpenUnreadablePath(k, argp);
    } else if ioctl == ReqOpen && PathLen(k, ua) > HostMaxPath {
      OpenPathTooLong(k, argp);
    } else if ioctl == ReqOpen && StagingFaults(k, ioctl, ua) {
      OpenStagingFault(k, argp);
    } else {
      CompletedRequestsClean(k, ioctl, argp);
    }
  }

  // ---- Defects of the handler as written -----------------------------------

  /** The allocator events of a WRITE whose staging faulted: everything is released before the
      trap, and the releases after it find nothing live. */
  lemma WriteFaultLedgerRun(n: int)
    ensures var early := [Alloc(UserArgs, ArgsSize), Alloc(Block, ArgsSize), Alloc(Buffer, n),
                          Free(UserArgs), Free(Block), Free(Buffer)];
      var late := [Free(Buffer), Free(UserArgs), Free(Block)];
      && Run({}, early) == Some({})
      && Run({}, early + late) == None
  {
    var early := [Alloc(UserArgs, ArgsSize), Alloc(Block, ArgsSize), Alloc(Buffer, n),
                  Free(UserArgs), Free(Block), Free(Buffer)];
    var late := [Free(Buffer), Free(UserArgs), Free(Block)];
    var none: set<Obj> := {};
    RunAppend(none, early[..2], early[2..]);
    assert early[..2] + early[2..] == early;
    assert early[..2] == [Alloc(UserArgs, ArgsSize), Alloc(Block, ArgsSize)];
    HeadRun();
    StagingFaultRun(n);
    RunAppend(none, early, late);
    RunCons(none, Free(Buffer), late[1..]);
    assert [Free(Buffer)] + late[1..] == late;
  }

  /** A fault staging WRITE data releases all three allocations and then carries on: the trap still
      happens after the block was released, and the buffer, the request copy and the block are
      each released a second time. */
  lemma WriteStagingFaultDoubleFrees(k: Services, argp: Word)
    requires RequestFetched(k, argp)
    requires StagingFaults(k, ReqWrite, k.userWords(argp))
    ensures var o := Ioctl(k, ReqWrite, argp);
      var n := k.userWords(argp).arg3;
      && |o.traps| == 1
      && o.trapAt == Some(6)
      && o.ledger == [Alloc(UserArgs, ArgsSize), Alloc(Block, ArgsSize), Alloc(Buffer, n),
                      Free(UserArgs), Free(Block), Free(Buffer),
                      Free(Buffer), Free(UserArgs), Free(Block)]
      && Run({}, o.ledger[..o.trapAt.value]) == Some({})
      && Misused(o.ledger)
  {
    var o := Ioctl(k, ReqWrite, argp);
    var n := k.userWords(argp).arg3;
    var early := [Alloc(UserArgs, ArgsSize), Alloc(Block, ArgsSize), Alloc(Buffer, n),
                  Free(UserArgs), Free(Block), Free(Buffer)];
    var late := [Free(Buffer), Free(UserArgs), Free(Block)];
    assert o.ledger == early + late;
    assert o.ledger[..6] == early;
    WriteFaultLedgerRun(n);
  }

  /** The buffer slot of OPEN, READ and WRITE carries the buffer's kernel virtual address, while the
      trap carries the block's physical address: wherever translation is not the identity, the
      host is not given the buffer's physical address. */
  lemma BufferSlotsCarryVirtualAddresses(k: Services, ioctl: Code, argp: Word)
    requires Validated(k, ioctl, argp)
    requires ioctl != ReqClose
    ensures var o := Ioctl(k, ioctl, argp);
      var buf := k.kzalloc(Buffer);
      var slot := if ioctl == ReqOpen then o.block.value.arg1 else o.block.value.arg2;
      && o.block.Some?
      && slot == buf
      && o.traps[0].blockPhys == k.virtToPhys(k.kzalloc(Block))
      && (k.virtToPhys(buf) != buf ==> slot != k.virtToPhys(buf))
  {
  }

  /** READ copies back as many bytes as the caller asked for, whatever the host returned: a short
      read still copies the full requested length, and the copy happens even after a host error,
      whose code a copy fault then replaces with -EFAULT. */
  lemma ReadCopiesRequestedLength(k: Services, argp: Word)
    requires Validated(k, ReqRead, argp)
    ensures var o := Ioctl(k, ReqRead, argp);
      var ua := k.userWords(argp);
      var buf := k.kzalloc(Buffer);
      var faulted := k.copyToUserFaults(ua.arg2, buf, ua.arg3);
      var r := k.host(o.traps[0]);
      && |o.traps| == 1
      && o.copies == [FromUser(k.kzalloc(UserArgs), argp, ArgsSize, false), ToUser(ua.arg2, buf, ua.arg3, faulted)]
      && (0 <= r < ua.arg3 ==> o.copies[1].n > r)
      && (r < 0 && r != -EFAULT && faulted ==> o.ret != r)
  {
  }

  /** No allocation is checked: the handler never reports -ENOMEM, and when `kzalloc` returns NULL
      for the request copy the request words are copied to address 0 regardless. */
  lemma AllocationUnchecked(k: Services, ioctl: Code, argp: Word)
    ensures var o := Ioctl(k, ioctl, argp);
      o.ret == -ENOMEM ==> o.traps != []
    ensures k.kzalloc(UserArgs) == 0 ==>
      var o := Ioctl(k, ioctl, argp);
      && |o.copies| > 0
      && o.copies[0].to == 0
  {
  }

  /** The staging copies of OPEN and WRITE pass the caller's pointer as the destination and the
      kernel buffer as the source: the reverse of `copy_from_user(to, from, n)`. */
  lemma StagingCopiesAreReversed(k: Services, ioctl: Code, argp: Word)
    requires RequestFetched(k, argp)
    requires ioctl == ReqWrite || (ioctl == ReqOpen && PathLenAccepted(PathLen(k, k.userWords(argp))))
    ensures var o := Ioctl(k, ioctl, argp);
      var ua := k.userWords(argp);
      var caller := if ioctl == ReqOpen then ua.arg1 else ua.arg2;
      && |o.copies| > 1
      && o.copies[1].FromUser?
      && o.copies[1].to == caller
      && o.copies[1].from == k.kzalloc(Buffer)
  {
  }
}
