/**
  The user side of the IOCTL: a buffer that starts at header size and grows
  until the driver accepts it. ClientStep is one iteration of the loop,
  ClientRun the loop against the driver's completions, whatever processor
  counts, vendor, memory and system errors each call finds; RunDriver is the
  method.
 */
module DriverClient {
  import opened Words
  import opened CpuDriver

  /** What DeviceIoControl reports: entries, a size error with the size now in the header, or any other error. */
  datatype Answer =
    | Accepted(bytes: u32, entries: seq<CpuData>)
    | TooSmall(requiredSize: u32)
    | OtherError

  /** held is the required_size field of the buffer, which a refusal without information leaves alone. */
  datatype Client =
    | Calling(size: u32, firstPass: bool, held: u32)
    | Returned(entries: seq<CpuData>)

  const START: Client := Calling(12, true, 0)

  /** One iteration; reallocOk says whether realloc finds the memory. */
  function ClientStep(c: Client, a: Answer, reallocOk: bool): Client {
    match c
    case Returned(_) => c
    case Calling(_, firstPass, _) =>
      match a
      case Accepted(bytes, entries) =>
        if bytes < SizeOf(|entries|) then Returned([]) else Returned(entries)
      case TooSmall(requiredSize) =>
        if !reallocOk then Returned([])
        else Calling(if firstPass then requiredSize else Trunc32(requiredSize * 2), false, requiredSize)
      case OtherError => if firstPass then Returned([]) else c
  }

  /** The driver's answer when its reply would be the given one. */
  function DriverAnswer(cfg: Config, io: Ioctl, size: u32, held: u32, reply: seq<CpuData>): Answer
    requires |io.cores| < TWO32
  {
    match Outcome(cfg, size, io, |reply|)
    case Success => Accepted(SizeOf(Trunc16(|reply|)), Shown(reply))
    case BufferOverflow => TooSmall(Announced(cfg, size, io))
    case BufferTooSmall => TooSmall(held)
    case InvalidDeviceRequest => OtherError
    case NotRetrieved => OtherError
  }

  /**
    Everything a run meets, call by call: the IOCTL, the reply the driver would
    give, whether the system refuses the call before the driver sees it, and
    whether realloc succeeds; and what follows from these, the size the driver
    requires, whether the request fails (in the system or where the handler
    retrieves its buffer, neither a size error nor a reply), and the answer.
   */
  datatype World = World(cfg: Config, env: nat -> Ioctl, reply: nat -> seq<CpuData>, refused: nat -> bool, memory: nat -> bool,
                         required: nat -> u32, fails: nat -> bool, answer: (nat, u32, u32) -> Answer)
  {
    ghost predicate Valid() { forall k: nat {:trigger env(k)} :: ValidAt(k) }

    ghost predicate ValidAt(k: nat) {
      && |env(k).cores| < TWO32 && env(k).isGetData && |reply(k)| == EntryCount(cfg, env(k))
      && required(k) == RequiredSize(cfg, |env(k).cores|) && fails(k) == (refused(k) || !env(k).retrieved)
      && forall size: u32, held: u32 {:trigger answer(k, size, held)} ::
           answer(k, size, held) == if refused(k) then OtherError else DriverAnswer(cfg, env(k), size, held, reply(k))
    }

    /** Full replies bounded in size so that neither the sizing nor its doubling overflows 32 bits. */
    ghost predicate Sized(limit: nat) {
      Valid() && 2 * limit < TWO32 && forall k: nat {:trigger env(k)} :: FullSize(k) <= limit
    }

    /** The bytes a reply with every entry takes. */
    function FullSize(k: nat): nat { SizeOf(cfg.PerCore() * |env(k).cores| + cfg.Aggregate()) }

    /** The client opens the driver of the vendor it detects, and the driver detects the same way. */
    ghost predicate VendorMatches() { forall k: nat :: env(k).cpu == cfg.Vendor() }

    ghost predicate NeverFails() { forall k: nat :: !fails(k) }

    ghost predicate RecoversAfter(n: nat) { exists k: nat :: n <= k && !fails(k) }

    /** Failures do not go on forever. */
    ghost predicate Recovers() { forall n: nat :: RecoversAfter(n) }

    ghost predicate MemoryFound() { forall k: nat :: memory(k) }

    ghost predicate ConstantCount() { forall k: nat :: |env(k).cores| == |env(0).cores| }
  }

  /** Any IOCTLs, replies of the right length, system errors and memory make a world. */
  lemma WorldOf(cfg: Config, env: nat -> Ioctl, reply: nat -> seq<CpuData>, refused: nat -> bool, memory: nat -> bool)
    returns (w: World)
    requires forall k: nat :: |env(k).cores| < TWO32 && env(k).isGetData && |reply(k)| == EntryCount(cfg, env(k))
    ensures w.Valid() && w.cfg == cfg && w.env == env && w.reply == reply && w.refused == refused && w.memory == memory
  {
    w := World(cfg, env, reply, refused, memory,
               (k: nat) => if |env(k).cores| < TWO32 then RequiredSize(cfg, |env(k).cores|) else 0,
               (k: nat) => refused(k) || !env(k).retrieved,
               (k: nat, size: u32, held: u32) =>
                 if |env(k).cores| < TWO32 && !refused(k) then DriverAnswer(cfg, env(k), size, held, reply(k)) else OtherError);
    forall k: nat ensures w.ValidAt(k) {
      assert |env(k).cores| < TWO32;
    }
  }

  /** The client after n calls. */
  function ClientRun(w: World, n: nat): Client {
    if n == 0 then START
    else
      var c := ClientRun(w, n - 1);
      if c.Returned? then c else ClientStep(c, w.answer(n - 1, c.size, c.held), w.memory(n - 1))
  }

  /** Call n is the last one. */
  ghost predicate ReturnsAt(w: World, n: nat, entries: seq<CpuData>)
    requires w.Valid()
  {
    ClientRun(w, n).Calling? && ClientRun(w, n + 1) == Returned(entries)
  }

  /**
    Call n ends the run as it should: empty-handed when the very first request
    fails; else, as long as memory is found, it is a later call and the result
    is what the driver wrote for it. With a constant processor count all calls
    between the first and it have failed.
   */
  ghost predicate Delivers(w: World, n: nat, entries: seq<CpuData>)
    requires w.Valid()
  {
    && ReturnsAt(w, n, entries)
    && (if w.fails(n) then n == 0 && entries == [] else w.memory(n) ==> n >= 1 && entries == Shown(w.reply(n)))
    && (w.ConstantCount() ==> forall k :: 1 <= k < n ==> w.fails(k))
  }

  // ---------------------------------------------------------- when it ends

  /** The driver's own vendor and a buffer that takes the whole reply. */
  ghost predicate Accepts(w: World, k: nat, size: u32)
    requires w.Valid()
  {
    && !w.fails(k) && w.env(k).cpu == w.cfg.Vendor()
    && Max(HEADER_SIZE, w.required(k)) <= size && Fits(size, EntryCount(w.cfg, w.env(k)))
  }

  /** A buffer without a header, or one the driver has retrieved and finds too small, before or while filling it. */
  ghost predicate SizeError(w: World, k: nat, size: u32)
    requires w.Valid()
  {
    && !w.refused(k)
    && (size < HEADER_SIZE
        || (w.env(k).retrieved && (size < w.required(k) || (w.env(k).cpu == w.cfg.Vendor() && !Accepts(w, k, size)))))
  }

  /** Call k ends the loop: accepted, or out of memory after a size error, or any other error on the very first call. */
  ghost predicate EndsAt(w: World, k: nat)
    requires w.Valid()
  {
    && ClientRun(w, k).Calling?
    && var size := ClientRun(w, k).size;
       || Accepts(w, k, size)
       || (SizeError(w, k, size) && !w.memory(k))
       || (k == 0 && !SizeError(w, k, size))
  }

  /**
    Whatever the calls meet: the loop has ended after n calls exactly when one
    of them was accepted, or found no memory after a size error, or was the
    first and failed otherwise. After the first call no other error has an
    exit.
   */
  lemma {:induction false} EndsExactly(w: World, n: nat)
    requires w.Valid()
    ensures ClientRun(w, n).Returned? <==> exists k :: 0 <= k < n && EndsAt(w, k)
    ensures n > 0 && ClientRun(w, n).Calling? ==> !ClientRun(w, n).firstPass
  {
    if n > 0 {
      EndsExactly(w, n - 1);
      if ClientRun(w, n - 1).Calling? { EndsHere(w, n - 1); }
    }
  }

  /** The three exits of one iteration. */
  lemma EndsHere(w: World, k: nat)
    requires w.Valid() && ClientRun(w, k).Calling? && (ClientRun(w, k).firstPass <==> k == 0)
    ensures ClientRun(w, k + 1).Returned? <==> EndsAt(w, k)
  {
    var c := ClientRun(w, k);
    assert w.env(k).isGetData && w.ValidAt(k);
    assert ClientRun(w, k + 1) == ClientStep(c, w.answer(k, c.size, c.held), w.memory(k));
    AnswerKinds(w, k, c.size, c.held);
  }

  lemma AnswerKinds(w: World, k: nat, size: u32, held: u32)
    requires w.Valid() && w.ValidAt(k)
    ensures w.answer(k, size, held).Accepted? <==> Accepts(w, k, size)
    ensures w.answer(k, size, held).Accepted? ==>
      w.answer(k, size, held) == Accepted(SizeOf(Trunc16(|w.reply(k)|)), Shown(w.reply(k)))
    ensures w.answer(k, size, held).TooSmall? <==> SizeError(w, k, size)
  {}

  /**
    The run that fails: the first call learns the size, every later request
    fails in the system or before the handler has its buffer. The client keeps
    calling with one and the same buffer.
   */
  lemma {:induction false} LaterFailuresNeverEnd(w: World, limit: nat, n: nat)
    requires w.Sized(limit) && !w.fails(0) && w.memory(0)
    requires forall k :: 1 <= k ==> w.fails(k)
    ensures ClientRun(w, n + 1) == Calling(w.required(0), false, w.required(0))
  {
    if n == 0 {
      assert ClientRun(w, 0) == START;
      OneCall(w, limit, 0);
    } else {
      LaterFailuresNeverEnd(w, limit, n - 1);
      OneCall(w, limit, n);
      assert w.fails(n);
    }
  }

  /** Eight Intel processors, say, and a buffer of 1552 bytes. */
  lemma EightProcessorsNeverEnd(w: World, n: nat)
    requires w.Valid() && w.cfg == Config(false, true, true, true, false, 16384, 10_000_000)
    requires forall k: nat :: |w.env(k).cores| == 8 && w.env(k).cpu == Intel && w.memory(k)
    requires forall k: nat :: w.fails(k) <==> k >= 1
    ensures ClientRun(w, n + 1) == Calling(1552, false, 1552)
  {
    forall k: nat ensures w.FullSize(k) == 1552 { assert |w.env(k).cores| == 8; }
    LaterFailuresNeverEnd(w, 1552, n);
    assert w.env(0).isGetData && w.required(0) == 1552;
  }

  /**
    With a constant count, no overflow and memory found the loop ends if and
    only if the first request fails or some later one does not.
   */
  lemma ConstantCountEnds(w: World, limit: nat)
    requires w.Sized(limit) && w.VendorMatches() && w.ConstantCount() && w.MemoryFound()
    ensures (exists n: nat :: ClientRun(w, n).Returned?) <==> w.fails(0) || exists k :: k >= 1 && !w.fails(k)
  {
    if w.fails(0) {
      var n := SomeCallEnds(w, limit, 0);
      assert ClientRun(w, n).Returned?;
    } else if k :| k >= 1 && !w.fails(k) {
      var n := SomeCallEnds(w, limit, k);
      assert ClientRun(w, n).Returned?;
    } else {
      assert w.memory(0);
      forall n: nat ensures ClientRun(w, n).Calling? {
        if n == 0 { assert ClientRun(w, 0) == START; } else { LaterFailuresNeverEnd(w, limit, n - 1); }
      }
    }
  }

  lemma SomeCallEnds(w: World, limit: nat, k: nat) returns (n: nat)
    requires w.Sized(limit) && w.VendorMatches() && w.ConstantCount() && if k == 0 then w.fails(0) else !w.fails(k)
    ensures ClientRun(w, n).Returned?
  {
    if ClientRun(w, k).Returned? { return k; }
    if k == 0 {
      assert ClientRun(w, 0) == START;
      OneCall(w, limit, 0);
    } else {
      AcceptedOnceLearnt(w, limit, k);
    }
    n := k + 1;
  }

  // ------------------------------------------------------- growth and bound

  lemma SizingIsExact(count: nat)
    requires SizeOf(count) < TWO32
    ensures Trunc32(HEADER_SIZE + Trunc32(count) * ENTRY_SIZE) == SizeOf(count)
  {}

  /** Every announced size is the true one and takes the whole reply. */
  lemma InBounds(w: World, limit: nat, k: nat)
    requires w.Sized(limit)
    ensures HEADER_SIZE < w.required(k) == w.FullSize(k) <= limit && Fits(w.required(k), |w.reply(k)|)
  {
    assert w.FullSize(k) <= limit && |w.reply(k)| == EntryCount(w.cfg, w.env(k));
    EntryCountAtMost(w.cfg, w.env(k));
    SizingIsExact(w.cfg.PerCore() * |w.env(k).cores| + w.cfg.Aggregate());
  }

  /** What such a driver answers to a buffer of at least header size. */
  lemma AnswerInBounds(w: World, limit: nat, k: nat, size: u32, held: u32)
    requires w.Sized(limit) && HEADER_SIZE <= size
    ensures w.answer(k, size, held)
         == if w.fails(k) then OtherError
            else if size < w.required(k) then TooSmall(w.required(k))
            else if w.env(k).cpu == w.cfg.Vendor() then Accepted(SizeOf(Trunc16(|w.reply(k)|)), Shown(w.reply(k)))
            else OtherError
  {
    InBounds(w, limit, k);
    assert w.env(k).isGetData;
  }

  /** One call of such a run. */
  lemma OneCall(w: World, limit: nat, n: nat)
    requires w.Sized(limit) && ClientRun(w, n).Calling?
    ensures var c := ClientRun(w, n); (c.firstPass <==> n == 0) && HEADER_SIZE <= c.size <= 2 * limit
    ensures ClientRun(w, n + 1) == AfterCall(w, n, ClientRun(w, n))
    ensures HEADER_SIZE < w.required(n) <= limit
  {
    SizeInBounds(w, limit, n);
    AfterAnswer(w, limit, n, ClientRun(w, n));
    InBounds(w, limit, n);
  }

  lemma {:induction false} SizeInBounds(w: World, limit: nat, n: nat)
    requires w.Sized(limit) && ClientRun(w, n).Calling?
    ensures var c := ClientRun(w, n); (c.firstPass <==> n == 0) && HEADER_SIZE <= c.size <= 2 * limit
  {
    if n == 0 {
      assert ClientRun(w, n) == START;
      InBounds(w, limit, 0);
    } else {
      SizeInBounds(w, limit, n - 1);
      AfterAnswer(w, limit, n - 1, ClientRun(w, n - 1));
      NextInBounds(w, limit, n - 1, ClientRun(w, n - 1));
    }
  }

  lemma NextInBounds(w: World, limit: nat, n: nat, c: Client)
    requires w.Sized(limit) && c.Calling? && HEADER_SIZE <= c.size <= 2 * limit
    ensures var next := AfterCall(w, n, c);
            next.Calling? ==> !next.firstPass && HEADER_SIZE <= next.size <= 2 * limit
  {
    InBounds(w, limit, n);
  }

  /** The client after call n when sizes do not overflow. */
  ghost function AfterCall(w: World, n: nat, c: Client): Client
    requires w.Valid() && c.Calling?
  {
    if w.fails(n) then if c.firstPass then Returned([]) else c
    else if c.size < w.required(n) then
      if w.memory(n) then Calling(if c.firstPass then w.required(n) else Trunc32(2 * w.required(n)), false, w.required(n))
      else Returned([])
    else if w.env(n).cpu == w.cfg.Vendor() then Returned(Shown(w.reply(n)))
    else if c.firstPass then Returned([])
    else c
  }

  lemma AfterAnswer(w: World, limit: nat, n: nat, c: Client)
    requires w.Sized(limit) && c.Calling? && HEADER_SIZE <= c.size
    ensures ClientStep(c, w.answer(n, c.size, c.held), w.memory(n)) == AfterCall(w, n, c)
  {
    AnswerInBounds(w, limit, n, c.size, c.held);
  }

  /** One iteration for the driver's own vendor, as the loop's variables see it. */
  lemma OneIteration(w: World, limit: nat, n: nat, size: u32, firstPass: bool, held: u32)
    requires w.Sized(limit) && w.VendorMatches() && ClientRun(w, n) == Calling(size, firstPass, held)
    ensures HEADER_SIZE <= size && 2 * w.required(n) <= 2 * limit < TWO32
    ensures ClientRun(w, n + 1)
         == if w.fails(n) then if firstPass then Returned([]) else Calling(size, firstPass, held)
            else if w.required(n) <= size then Returned(Shown(w.reply(n)))
            else if w.memory(n) then Calling(if firstPass then w.required(n) else 2 * w.required(n), false, w.required(n))
            else Returned([])
  {
    OneCall(w, limit, n);
    assert w.env(n).cpu == w.cfg.Vendor();
  }

  /** Wherever such a run ends, it ends as it should. */
  lemma LastCallDelivers(w: World, limit: nat, n: nat, entries: seq<CpuData>)
    requires w.Sized(limit) && w.VendorMatches() && ReturnsAt(w, n, entries)
    ensures Delivers(w, n, entries)
  {
    var c := ClientRun(w, n);
    OneIteration(w, limit, n, c.size, c.firstPass, c.held);
    OneCall(w, limit, n);
    LearntOnce(w, limit, n);
    assert n == 0 ==> c == START;
  }

  /** With a constant count the first call learns the size; as long as the run then goes on, every request has failed. */
  lemma {:induction false} LearntOnce(w: World, limit: nat, n: nat)
    requires w.Sized(limit) && w.VendorMatches() && ClientRun(w, n).Calling?
    ensures w.ConstantCount() && n >= 1 ==>
      ClientRun(w, n).size == w.required(0) == w.required(n) && forall k :: 1 <= k < n ==> w.fails(k)
  {
    if n > 0 {
      LearntOnce(w, limit, n - 1);
      OneCall(w, limit, n - 1);
      assert n == 1 ==> ClientRun(w, 0) == START;
      assert w.env(n - 1).cpu == w.cfg.Vendor();
      assert w.ConstantCount() ==> |w.env(n - 1).cores| == |w.env(n).cores| == |w.env(0).cores|;
    }
  }

  lemma AcceptedOnceLearnt(w: World, limit: nat, k: nat)
    requires w.Sized(limit) && w.VendorMatches() && w.ConstantCount() && k >= 1 && !w.fails(k) && ClientRun(w, k).Calling?
    ensures ClientRun(w, k + 1) == Returned(Shown(w.reply(k)))
  {
    LearntOnce(w, limit, k);
    var c := ClientRun(w, k);
    OneIteration(w, limit, k, c.size, c.firstPass, c.held);
  }

  /** Each call refused for its size strictly raises it, and from the second call on at least doubles it. */
  lemma RefusalGrows(w: World, limit: nat, n: nat)
    requires w.Sized(limit) && ClientRun(w, n).Calling? && ClientRun(w, n + 1).Calling? && !w.fails(n)
    requires ClientRun(w, n).size < w.required(n) || w.env(n).cpu == w.cfg.Vendor()
    ensures var before, after := ClientRun(w, n), ClientRun(w, n + 1);
            && before.size < after.size <= 2 * limit
            && (n >= 1 ==> 2 * before.size < after.size)
            && after.size == if n == 0 then w.required(n) else 2 * w.required(n)
  {
    OneCall(w, limit, n);
  }

  function Pow2(n: nat): nat { if n == 0 then 1 else 2 * Pow2(n - 1) }

  lemma {:induction false} SizeAfterRefusals(w: World, limit: nat, n: nat)
    requires w.Sized(limit) && w.VendorMatches() && w.NeverFails() && ClientRun(w, n + 1).Calling?
    ensures ClientRun(w, n + 1).size > HEADER_SIZE * Pow2(n)
  {
    assert ClientRun(w, n).Calling? && w.env(n).cpu == w.cfg.Vendor() && !w.fails(n);
    RefusalGrows(w, limit, n);
    if n > 0 { SizeAfterRefusals(w, limit, n - 1); } else { OneCall(w, limit, n); }
  }

  /** Without failures, once 12 * 2^n reaches the largest size, call n + 2 is answered at the latest. */
  lemma HandshakeTerminates(w: World, limit: nat, n: nat)
    requires w.Sized(limit) && w.VendorMatches() && w.NeverFails() && limit <= HEADER_SIZE * Pow2(n)
    ensures ClientRun(w, n + 2).Returned?
  {
    if ClientRun(w, n + 1).Calling? {
      SizeAfterRefusals(w, limit, n);
      assert w.env(n + 1).cpu == w.cfg.Vendor() && !w.fails(n + 1);
      OneCall(w, limit, n + 1);
    }
  }

  /** Under any bounded processor counts, whatever fails in between, the loop ends as it should. */
  lemma HandshakeEnds(w: World, limit: nat) returns (last: nat, entries: seq<CpuData>)
    requires w.Sized(limit) && w.VendorMatches() && w.Recovers()
    ensures Delivers(w, last, entries)
  {
    assert w.RecoversAfter(0);
    var ahead: nat :| !w.fails(ahead);
    last, entries := EndsFrom(w, limit, 0, ahead);
  }

  /** A request that does not fail, past the n-th. */
  lemma NextAhead(w: World, n: nat, ahead: nat) returns (next: nat)
    requires w.Recovers() && n <= ahead && !w.fails(ahead)
    ensures n < next && !w.fails(next) && (w.fails(n) ==> next == ahead)
  {
    if w.fails(n) { return ahead; }
    assert w.RecoversAfter(n + 1);
    next :| n + 1 <= next && !w.fails(next);
  }

  lemma {:induction false} EndsFrom(w: World, limit: nat, n: nat, ahead: nat) returns (last: nat, entries: seq<CpuData>)
    requires w.Sized(limit) && w.VendorMatches() && w.Recovers()
    requires ClientRun(w, n).Calling? && n <= ahead && !w.fails(ahead)
    ensures Delivers(w, last, entries)
    decreases 2 * limit - ClientRun(w, n).size, ahead - n
  {
    var c := ClientRun(w, n);
    OneCall(w, limit, n);
    OneIteration(w, limit, n, c.size, c.firstPass, c.held);
    if ClientRun(w, n + 1).Returned? {
      last, entries := n, ClientRun(w, n + 1).entries;
      LastCallDelivers(w, limit, last, entries);
    } else {
      var next := NextAhead(w, n, ahead);
      last, entries := EndsFrom(w, limit, n + 1, next);
    }
  }

  /** With a constant processor count the first call learns the size and the second succeeds. */
  lemma ConstantCountTakesTwoCalls(w: World, limit: nat)
    requires w.Sized(limit) && w.VendorMatches() && w.memory(0) && !w.fails(0) && !w.fails(1)
    requires |w.env(1).cores| == |w.env(0).cores|
    ensures ClientRun(w, 1) == Calling(w.required(0), false, w.required(0))
    ensures ClientRun(w, 2) == Returned(Shown(w.reply(1)))
  {
    assert ClientRun(w, 0) == START && w.env(1).cpu == w.cfg.Vendor();
    OneCall(w, limit, 0);
    OneCall(w, limit, 1);
  }

  // ------------------------------------------------- the loop and the driver

  /** The replies of the world are those the driver is ready to give. */
  ghost predicate Describes(w: World, cfg: Config, cores: seq<CoreDelta>, pkg: EnergySlot, pp0: EnergySlot) {
    && w.cfg == cfg && w.Valid()
    && forall k: nat {:trigger w.env(k)} :: w.reply(k) == Reply(cfg, cores, pkg, pp0, w.env(k))
  }

  function AnswerOf(c: Completion, header: Header, data: seq<CpuData>): Answer
    requires c.status == Success ==> header.entryCount <= |data|
  {
    if c.status == Success then Accepted(c.information, data[..header.entryCount])
    else if c.status == BufferOverflow || c.status == BufferTooSmall then TooSmall(header.requiredSize)
    else OtherError
  }

  /** One system call: as many bytes as the driver reports come back; a call that does not collect samples nothing. */
  method DeviceIoControl(driver: Driver, size: u32, header: Header, io: Ioctl)
    returns (c: Completion, newHeader: Header, data: seq<CpuData>)
    requires |io.cores| < TWO32
    modifies driver`pkg, driver`pp0, driver.coreState
    ensures c.status == Success ==> newHeader.entryCount <= |data|
    ensures c.status == Outcome(driver.cfg, size, io, |old(driver.NextReply(io))|)
    ensures c.status != Success && c.status != BufferOverflow ==> newHeader == header
    ensures AnswerOf(c, newHeader, data)
         == DriverAnswer(driver.cfg, io, size, header.requiredSize, old(driver.NextReply(io)))
    ensures !Collects(driver.cfg, size, io) ==> driver.Unsampled(old(driver.Cores()), old(driver.pkg), old(driver.pp0))
  {
    var buf := new OutBuffer(size, header);
    ghost var reply := driver.NextReply(io);
    c := driver.EvtIoDeviceControl(buf, io);
    newHeader, data := if c.information >= HEADER_SIZE then buf.header else header, buf.slots[..];
    if c.status == Success { WrittenTail(data, reply); }
  }

  /** The call as a run without overflow meets it; a call the system refuses does not reach the driver. */
  method Call(driver: Driver, w: World, k: nat, size: u32, header: Header, ghost limit: nat)
    returns (c: Completion, newHeader: Header, data: seq<CpuData>)
    requires Describes(w, driver.cfg, driver.Cores(), driver.pkg, driver.pp0)
    requires w.Sized(limit) && w.VendorMatches() && HEADER_SIZE <= size
    modifies driver`pkg, driver`pp0, driver.coreState
    ensures w.fails(k) ==> c.status != Success && c.status != BufferOverflow && c.status != BufferTooSmall && newHeader == header
    ensures !w.fails(k) ==> c.status == if size < w.required(k) then BufferOverflow else Success
    ensures !w.fails(k) && size < w.required(k) ==> newHeader.requiredSize == w.required(k)
    ensures w.fails(k) || size < w.required(k) ==> driver.Unsampled(old(driver.Cores()), old(driver.pkg), old(driver.pp0))
    ensures !w.fails(k) && w.required(k) <= size ==>
      && newHeader.entryCount <= |data| && data[..newHeader.entryCount] == Shown(w.reply(k))
      && c.information == SizeOf(newHeader.entryCount)
  {
    if w.refused(k) { return Completion(InvalidDeviceRequest, 0), header, []; }
    AnswerInBounds(w, limit, k, size, header.requiredSize);
    InBounds(w, limit, k);
    assert w.env(k).cpu == w.cfg.Vendor() && w.env(k).isGetData;
    assert w.reply(k) == driver.NextReply(w.env(k));
    c, newHeader, data := DeviceIoControl(driver, size, header, w.env(k));
  }

  /**
    The grow-and-retry loop is ClientRun over the replies the driver was ready
    to give on entry (refused calls sample nothing). It terminates for all
    processor counts without 32-bit overflow, as long as the requests do not
    fail forever.
   */
  method RunDriver(driver: Driver, w: World, mallocOk: bool, ghost limit: nat) returns (result: seq<CpuData>, ghost last: nat)
    requires Describes(w, driver.cfg, driver.Cores(), driver.pkg, driver.pp0)
    requires w.Sized(limit) && w.VendorMatches() && w.Recovers()
    modifies driver`pkg, driver`pp0, driver.coreState
    ensures !mallocOk ==> result == []
    ensures mallocOk ==> Delivers(w, last, result)
  {
    result, last := [], 0;
    if !mallocOk { return; }
    var size: u32 := HEADER_SIZE;
    var header := Header(0, 0, 0);
    var firstPass, k := true, 0;
    assert w.RecoversAfter(0);
    ghost var ahead: nat :| !w.fails(ahead);
    while true
      invariant ClientRun(w, k) == Calling(size, firstPass, header.requiredSize) && result == []
      invariant driver.Unsampled(old(driver.Cores()), old(driver.pkg), old(driver.pp0))
      invariant HEADER_SIZE <= size && k <= ahead && !w.fails(ahead)
      decreases 2 * limit - size, ahead - k
    {
      last := k;
      ahead := NextAhead(w, k, ahead);
      OneIteration(w, limit, k, size, firstPass, header.requiredSize);
      var c, answer, data := Call(driver, w, k, size, header, limit);
      header := answer;
      if c.status == Success {
        if c.information >= SizeOf(header.entryCount) {
          result := data[..header.entryCount];
        }
        assert result == Shown(w.reply(k));
        break;
      } else if firstPass {
        if c.status == BufferOverflow || c.status == BufferTooSmall {
          firstPass := false;
          size := header.requiredSize;
          if !w.memory(k) { break; }
        } else {
          break;
        }
      } else if c.status == BufferOverflow || c.status == BufferTooSmall {
        size := Trunc32(header.requiredSize * 2);
        if !w.memory(k) { break; }
      }
      assert ClientRun(w, k + 1) == Calling(size, firstPass, header.requiredSize);
      k := k + 1;
    }
    LastCallDelivers(w, limit, last, result);
  }
}
