/**
 The request handler as it is evidently intended to behave, with the defects of the code
 as written removed: every allocation is checked, the staging copies move caller data into the
 kernel buffer, buffer slots carry physical addresses, a WRITE staging fault returns,
 an unrecognised code releases what it allocated, and READ copies back only the bytes
 the host reports. It shares the oracles, the outcome record and the ledger with
 the model of the code as written.
 */
module Corrected {
  import opened Wrappers
  import opened Api
  import opened Ledger
  import opened Kernel
  import Driver

  /** `kzalloc` returned NULL. */
  predicate IsNull(addr: Word)
  {
    addr == 0
  }

  /** Allocates the data buffer and, when `stageFrom` names a caller address, stages `n` bytes from it. */
  function Buffered(k: Services, n: Word, stageFrom: Option<Word>, block: Word -> Args): Driver.Marshalled
  {
    var buf := k.kzalloc(Buffer);
    if IsNull(buf) then
      Driver.Rejected(-ENOMEM, [Free(UserArgs), Free(Block)], [])
    else match stageFrom
      case None =>
        Driver.Ready(block(k.virtToPhys(buf)), [Alloc(Buffer, n)], [])
      case Some(src) =>
        var faulted := k.copyFromUserFaults(buf, src, n);
        var stage := FromUser(buf, src, n, faulted);
        if faulted then
          Driver.Rejected(-EFAULT, [Alloc(Buffer, n), Free(UserArgs), Free(Block), Free(Buffer)], [stage])
        else
          Driver.Ready(block(k.virtToPhys(buf)), [Alloc(Buffer, n)], [stage])
  }

  /** The first switch, corrected. */
  function Marshal(k: Services, ioctl: Code, ua: Args): (m: Driver.Marshalled)
    ensures m.Unsupported? <==> !IsKnownCode(ioctl)
    ensures m.Ready? ==> m.block.arg4 == 0
  {
    if ioctl == ReqOpen then
      var pathLen := Driver.PathLen(k, ua);
      if pathLen == 0 then
        Driver.Rejected(-EFAULT, [Free(UserArgs), Free(Block)], [])
      else if pathLen > HostMaxPath then
        Driver.Rejected(-ENAMETOOLONG, [Free(UserArgs), Free(Block)], [])
      else
        Buffered(k, pathLen, Some(ua.arg1), (phys: Word) => ZeroArgs.(arg1 := phys, arg2 := ua.arg2, arg3 := ua.arg3))
    else if ioctl == ReqRead then
      Buffered(k, ua.arg3, None, (phys: Word) => ZeroArgs.(arg1 := ua.arg1, arg2 := phys, arg3 := ua.arg3))
    else if ioctl == ReqWrite then
      Buffered(k, ua.arg3, Some(ua.arg2), (phys: Word) => ZeroArgs.(arg1 := ua.arg1, arg2 := phys, arg3 := ua.arg3))
    else if ioctl == ReqClose then
      Driver.Ready(ZeroArgs.(arg1 := ua.arg1), [], [])
    else
      Driver.Unsupported
  }

  /** The number of bytes READ copies back: what the host reports, capped at the requested length. */
  function ReadBack(r: SWord, requested: Word): Word
    requires r >= 0
  {
    if r <= requested then r else requested
  }

  /** The second switch, corrected. */
  function Unmarshal(k: Services, ioctl: Code, ua: Args, block: Args, r: SWord): (f: Driver.Finish)
    ensures r < 0 ==> f.ret == r && f.copies == []
    ensures ioctl != ReqRead ==> f.ret == r && f.copies == []
    ensures ioctl == ReqRead && r >= 0 ==>
      && |f.copies| == 1 && f.copies[0].ToUser?
      && f.copies[0].to == ua.arg2 && f.copies[0].from == k.kzalloc(Buffer)
      && f.copies[0].n <= r && f.copies[0].n <= block.arg3
      && (r <= block.arg3 ==> f.copies[0].n == r)
      && f.ret == (if f.copies[0].faulted then -EFAULT else r)
    ensures forall e | e in f.ledger :: e == Free(Buffer)
    ensures |f.ledger| == (if ioctl == ReqOpen || ioctl == ReqRead || ioctl == ReqWrite then 1 else 0)
  {
    var buf := k.kzalloc(Buffer);
    if ioctl == ReqOpen || ioctl == ReqWrite then
      Driver.Finish(r, [Free(Buffer)], [])
    else if ioctl == ReqRead then
      if r < 0 then
        Driver.Finish(r, [Free(Buffer)], [])
      else
        var n := ReadBack(r, block.arg3);
        var faulted := k.copyToUserFaults(ua.arg2, buf, n);
        Driver.Finish(if faulted then -EFAULT else r, [Free(Buffer)], [ToUser(ua.arg2, buf, n, faulted)])
    else
      Driver.Finish(r, [], [])
  }

  /** The request copy and the block were allocated and the request words fetched. */
  predicate Fetched(k: Services, argp: Word)
  {
    !IsNull(k.kzalloc(UserArgs)) && Driver.RequestFetched(k, argp) && !IsNull(k.kzalloc(Block))
  }

  /** A request the corrected handler takes to the trap: every allocation succeeds, the request is
      fetched, the code is known, an OPEN path has acceptable length and OPEN or WRITE data is staged. */
  predicate Admitted(k: Services, ioctl: Code, argp: Word)
  {
    var ua := k.userWords(argp);
    var buf := k.kzalloc(Buffer);
    && Fetched(k, argp)
    && IsKnownCode(ioctl)
    && (ioctl != ReqClose ==> !IsNull(buf))
    && (ioctl == ReqOpen ==>
          PathLenAccepted(Driver.PathLen(k, ua)) && !k.copyFromUserFaults(buf, ua.arg1, Driver.PathLen(k, ua)))
    && (ioctl == ReqWrite ==> !k.copyFromUserFaults(buf, ua.arg2, ua.arg3))
  }

  /** The corrected request handler. */
  function Ioctl(k: Services, ioctl: Code, argp: Word): (o: Outcome)
    ensures |o.traps| == (if Admitted(k, ioctl, argp) then 1 else 0)
    ensures forall t | t in o.traps :: t.port == MagicPort && t.code == ioctl && t.blockPhys == BlockPhys(k)
    ensures o.block.Some? ==> o.block.value.arg4 == 0
    ensures o.traps == [] ==> IsLocalError(o.ret)
    ensures !IsKnownCode(ioctl) ==> o.traps == []
    ensures o.trapAt.Some? <==> o.traps != []
    ensures o.trapAt.Some? ==> o.trapAt.value <= |o.ledger|
  {
    var uaAddr := k.kzalloc(UserArgs);
    if IsNull(uaAddr) then
      Outcome(-ENOMEM, [], None, None, [], [])
    else
      var fetchFaulted := k.copyFromUserFaults(uaAddr, argp, ArgsSize);
      var fetch := FromUser(uaAddr, argp, ArgsSize, fetchFaulted);
      if fetchFaulted then
        Outcome(-EFAULT, [], None, None, [Alloc(UserArgs, ArgsSize), Free(UserArgs)], [fetch])
      else if IsNull(k.kzalloc(Block)) then
        Outcome(-ENOMEM, [], None, None, [Alloc(UserArgs, ArgsSize), Free(UserArgs)], [fetch])
      else
        var ua := k.userWords(argp);
        var head := [Alloc(UserArgs, ArgsSize), Alloc(Block, ArgsSize)];
        match Marshal(k, ioctl, ua)
        case Unsupported =>
          Outcome(-EINVAL, [], None, Some(ZeroArgs), head + [Free(UserArgs), Free(Block)], [fetch])
        case Rejected(err, l, c) =>
          Outcome(err, [], None, Some(ZeroArgs), head + l, [fetch] + c)
        case Ready(block, l, c) =>
          var call := TrapCall(MagicPort, ioctl, BlockPhys(k), block);
          var fin := Unmarshal(k, ioctl, ua, block, k.host(call));
          Outcome(fin.ret, [call], Some(|head + l|), Some(block), head + l + fin.ledger + [Free(UserArgs), Free(Block)], [fetch] + c + fin.copies)
  }

  // ---- Intended properties, proved ----------------------------------------

  /** Leak-freedom on every path: whatever the oracles do, each allocation is released exactly once. */
  lemma AlwaysClean(k: Services, ioctl: Code, argp: Word)
    ensures Clean(Ioctl(k, ioctl, argp).ledger)
  {
    var o := Ioctl(k, ioctl, argp);
    if IsNull(k.kzalloc(UserArgs)) {
      assert o.ledger == [];
    } else if !Driver.RequestFetched(k, argp) || IsNull(k.kzalloc(Block)) {
      Driver.FetchOnlyRun();
    } else {
      var ua := k.userWords(argp);
      var head := [Alloc(UserArgs, ArgsSize), Alloc(Block, ArgsSize)];
      var both: set<Obj> := {UserArgs, Block};
      Driver.HeadRun();
      match Marshal(k, ioctl, ua)
      case Unsupported =>
        RunAppend({}, head, [Free(UserArgs), Free(Block)]);
        Driver.TailRun(both);
        assert both - {UserArgs, Block} == {};
      case Rejected(err, l, c) =>
        RunAppend({}, head, l);
        if |l| == 2 {
          assert l == [Free(UserArgs), Free(Block)];
          Driver.TailRun(both);
          assert both - {UserArgs, Block} == {};
        } else {
          assert l == [Alloc(Buffer, l[0].size), Free(UserArgs), Free(Block), Free(Buffer)];
          Driver.StagingFaultRun(l[0].size);
        }
      case Ready(block, l, c) =>
        var fin := Unmarshal(k, ioctl, ua, block, k.host(TrapCall(MagicPort, ioctl, BlockPhys(k), block)));
        Driver.TrappedRun(l, fin.ledger);
        if ioctl == ReqClose {
          assert l == [] && fin.ledger == [];
        } else {
          assert l == [Alloc(Buffer, l[0].size)];
          assert fin.ledger == [Free(Buffer)];
          Driver.SingleRun(both, l[0]);
          Driver.SingleRun(both + {Buffer}, Free(Buffer));
          assert both + {Buffer} - {Buffer} == both;
        }
        Driver.TailRun(both);
        assert both - {UserArgs, Block} == {};
    }
  }

  /** Leak-freedom as a count: on every path each allocation role is acquired as often as it is released. */
  lemma AcquisitionsEqualReleases(k: Services, ioctl: Code, argp: Word)
    ensures forall x :: Allocs(Ioctl(k, ioctl, argp).ledger, x) == Frees(Ioctl(k, ioctl, argp).ledger, x)
  {
    AlwaysClean(k, ioctl, argp);
    CleanBalanced(Ioctl(k, ioctl, argp).ledger);
  }

  /** Whenever the corrected handler traps, the request copy, the block and (except for CLOSE) the
      buffer are all live at that moment: the host never sees released memory. */
  lemma TrapSeesLiveAllocations(k: Services, ioctl: Code, argp: Word)
    requires Admitted(k, ioctl, argp)
    ensures var o := Ioctl(k, ioctl, argp);
      && o.trapAt.Some?
      && Run({}, o.ledger[..o.trapAt.value]) ==
           Some(if ioctl == ReqClose then {UserArgs, Block} else {UserArgs, Block, Buffer})
  {
    var o := Ioctl(k, ioctl, argp);
    var ua := k.userWords(argp);
    var m := Marshal(k, ioctl, ua);
    var head := [Alloc(UserArgs, ArgsSize), Alloc(Block, ArgsSize)];
    var both: set<Obj> := {UserArgs, Block};
    Driver.HeadRun();
    assert m.Ready?;
    if ioctl == ReqClose {
      assert o.ledger[..2] == head;
    } else {
      assert m.ledger == [Alloc(Buffer, m.ledger[0].size)];
      assert o.ledger[..3] == head + m.ledger;
      RunAppend({}, head, m.ledger);
      Driver.SingleRun(both, m.ledger[0]);
      assert both + {Buffer} == {UserArgs, Block, Buffer};
    }
  }

  /** An unrecognised code returns -EINVAL without a trap and releases what it allocated. */
  lemma UnsupportedCodeReleases(k: Services, ioctl: Code, argp: Word)
    requires !IsKnownCode(ioctl)
    ensures var o := Ioctl(k, ioctl, argp);
      && o.traps == []
      && (Fetched(k, argp) ==> o.ret == -EINVAL)
      && Clean(o.ledger)
  {
    AlwaysClean(k, ioctl, argp);
  }

  /** A fault staging WRITE data returns -EFAULT at once: no trap, every allocation released once. */
  lemma WriteStagingFaultStops(k: Services, argp: Word)
    requires Fetched(k, argp)
    requires !IsNull(k.kzalloc(Buffer))
    requires k.copyFromUserFaults(k.kzalloc(Buffer), k.userWords(argp).arg2, k.userWords(argp).arg3)
    ensures var o := Ioctl(k, ReqWrite, argp);
      && o.ret == -EFAULT
      && o.traps == []
      && Clean(o.ledger)
      && !Misused(o.ledger)
  {
    AlwaysClean(k, ReqWrite, argp);
  }

  /** The buffer slot of OPEN, READ and WRITE carries the buffer's physical address. */
  lemma BufferSlotsCarryPhysicalAddresses(k: Services, ioctl: Code, argp: Word)
    requires Admitted(k, ioctl, argp)
    requires ioctl != ReqClose
    ensures var o := Ioctl(k, ioctl, argp);
      var slot := if ioctl == ReqOpen then o.block.value.arg1 else o.block.value.arg2;
      && o.block.Some?
      && slot == k.virtToPhys(k.kzalloc(Buffer))
      && o.traps[0].block == o.block.value
  {
  }

  /** READ after a host error copies nothing and returns the host's code; after success it copies
      back at most what the host reported and at most what the caller asked for. */
  lemma ReadCopiesReturnedCount(k: Services, argp: Word)
    requires Admitted(k, ReqRead, argp)
    ensures var o := Ioctl(k, ReqRead, argp);
      var ua := k.userWords(argp);
      var r := k.host(o.traps[0]);
      && |o.traps| == 1
      && (r < 0 ==> o.ret == r && |o.copies| == 1)
      && (r >= 0 ==> |o.copies| == 2 && o.copies[1].ToUser? && o.copies[1].n <= r && o.copies[1].n <= ua.arg3
                     && (r <= ua.arg3 ==> o.copies[1].n == r))
  {
  }

  /** A NULL from any allocation makes the handler return -ENOMEM without trapping, releasing what it holds. */
  lemma AllocationChecked(k: Services, ioctl: Code, argp: Word)
    requires || IsNull(k.kzalloc(UserArgs))
             || (Driver.RequestFetched(k, argp) && IsNull(k.kzalloc(Block)))
             || (&& Fetched(k, argp)
                 && IsKnownCode(ioctl) && ioctl != ReqClose
                 && (ioctl == ReqOpen ==> PathLenAccepted(Driver.PathLen(k, k.userWords(argp))))
                 && IsNull(k.kzalloc(Buffer)))
    ensures var o := Ioctl(k, ioctl, argp);
      && o.ret == -ENOMEM
      && o.traps == []
      && Clean(o.ledger)
  {
    AlwaysClean(k, ioctl, argp);
  }

  /** The staging copies of OPEN and WRITE move caller data into the kernel buffer. */
  lemma StagingCopiesIntoKernel(k: Services, ioctl: Code, argp: Word)
    requires Fetched(k, argp)
    requires !IsNull(k.kzalloc(Buffer))
    requires ioctl == ReqWrite || (ioctl == ReqOpen && PathLenAccepted(Driver.PathLen(k, k.userWords(argp))))
    ensures var o := Ioctl(k, ioctl, argp);
      var ua := k.userWords(argp);
      var caller := if ioctl == ReqOpen then ua.arg1 else ua.arg2;
      && |o.copies| > 1
      && o.copies[1].FromUser?
      && o.copies[1].to == k.kzalloc(Buffer)
      && o.copies[1].from == caller
  {
  }
}
