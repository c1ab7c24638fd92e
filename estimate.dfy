/** Arithmetic facts about truncating division of naturals, used by the
    estimator's proofs. */
module DivisionFacts {

  /** `a / r` is the number of whole `r`s in `a`. */
  lemma DivBounds(a: nat, r: nat)
    requires r > 0
    ensures (a / r) * r <= a < (a / r + 1) * r
  {
    var q := a / r;
    assert a == q * r + a % r;
    assert (q + 1) * r == q * r + r;
  }

  /** Every count whose multiple of `r` fits in `a` is at most `a / r`. */
  lemma DivIsMax(a: nat, r: nat, q: nat)
    requires r > 0 && q * r <= a
    ensures q <= a / r
  {
    DivBounds(a, r);
    if q > a / r {
      MulMonotone(a / r + 1, q, r);
    }
  }

  lemma MulMonotone(x: nat, y: nat, r: nat)
    requires x <= y
    ensures x * r <= y * r
  {
    assert y * r == x * r + (y - x) * r;
  }

  /** A larger divisor never gives a larger quotient. */
  lemma DivAntitone(a: nat, r1: nat, r2: nat)
    requires 0 < r1 <= r2
    ensures a / r2 <= a / r1
  {
    DivBounds(a, r2);
    MulMonotone(r1, r2, a / r2);
    assert (a / r2) * r1 <= (a / r2) * r2;
    DivIsMax(a, r1, a / r2);
  }

  /** A larger dividend never gives a smaller quotient. */
  lemma DivMonotone(a1: nat, a2: nat, r: nat)
    requires a1 <= a2 && r > 0
    ensures a1 / r <= a2 / r
  {
    var q := a1 / r;
    DivBounds(a1, r);
    assert q * r <= a2;
    DivIsMax(a2, r, q);
  }

  /** Less than one `r` in `a` gives a quotient of 0. */
  lemma DivOfSmaller(a: nat, r: nat)
    requires a < r
    ensures a / r == 0
  {
    DivBounds(a, r);
    if a / r > 0 {
      MulMonotone(1, a / r, r);
    }
  }
}

/** The worker-count estimator: how many memory-heavy workers (index
    building, compression, state reconstitution) may run at once, given the
    estimated RAM one worker needs, the memory the process may use and the
    number of CPUs it may use. */
module Estimate {
  import opened GoTypes
  import opened LineScanner
  import opened Strconv
  import opened DivisionFacts

  /** What opening and scanning the cgroup v2 `memory.max` file gives. */
  datatype CgroupFile =
    | Unopenable              // the file cannot be opened (no cgroup v2, not Linux, no permission)
    | Unreadable              // reading fails before the scanner yields its first line
    | Contents(data: seq<byte>) // the bytes read, up to the end of the file

  /** The host state the estimator reads: the cgroup file, the host's total
      memory in bytes, and the current `GOMAXPROCS` setting. */
  datatype Host = Host(cgroup: CgroupFile, totalMemory: uint64, gomaxprocs: int64)

  /** Byte sizes, in binary units. */
  const KB: uint64 := 1024
  const MB: uint64 := 1024 * KB
  const GB: uint64 := 1024 * MB

  /** Estimated RAM per worker of the three memory-heavy jobs. */
  const IndexSnapshot: uint64 := 2 * GB
  const CompressSnapshot: uint64 := 1 * GB
  const ReconstituteState: uint64 := 512 * MB

  /** The cgroup memory limit, or why there is none. An empty file is not
      an error: the scanner yields no line and reports no error, and the
      limit read is 0. A negative number wraps around to a huge limit. */
  function FetchCgroupMemoryMax(f: CgroupFile): (r: Result<uint64>)
    ensures r.Err? <==> f.Unopenable? || f.Unreadable?
                        || (f.Contents? && f.data != [] && Atoi(FirstLine(f.data).value).Err?)
    ensures f.Unopenable? ==> r == Err(OpenFailed)
    ensures f.Unreadable? ==> r == Err(ReadFailed)
    ensures f == Contents([]) ==> r == Ok(0)
    ensures f.Contents? && f.data != [] && r.Ok? ==>
              (r.value - Atoi(FirstLine(f.data).value).value) % TWO_64 == 0
  {
    match f
    case Unopenable => Err(OpenFailed)
    case Unreadable => Err(ReadFailed)
    case Contents(data) =>
      match FirstLine(data)
      case None => Ok(0)
      case Some(line) =>
        match Atoi(line)
        case Err(cause) => Err(cause)
        case Ok(v) => Ok(Uint64OfInt64(v))
  }

  /** The memory limit the estimator plans with: the cgroup limit when it
      could be read, otherwise the host's total memory. */
  function MaxMemory(h: Host): (m: uint64)
    ensures h.cgroup.Unopenable? || h.cgroup.Unreadable? ==> m == h.totalMemory
    ensures h.cgroup == Contents([]) ==> m == 0
    ensures h.cgroup.Contents? && h.cgroup.data != [] ==>
              match Atoi(FirstLine(h.cgroup.data).value)
              case Err(_) => m == h.totalMemory
              case Ok(v) => m == Uint64OfInt64(v)
  {
    var fetched := FetchCgroupMemoryMax(h.cgroup);
    if fetched.Err? then h.totalMemory else fetched.value
  }

  /** All CPUs but one, and never fewer than one: one CPU is left to the
      thread that produces the work. */
  function AlmostAllCPUs(gomaxprocs: int64): (c: int64)
    ensures c >= 1
    ensures gomaxprocs >= 2 ==> c == gomaxprocs - 1
    ensures MIN_INT64 < gomaxprocs <= 2 ==> c == 1
    ensures gomaxprocs == MIN_INT64 ==> c == MAX_INT64
  {
    Max(1, Sub64(gomaxprocs, 1))
  }

  /** How many workers of `r` bytes each fit in half of `limit`: the
      largest such count, converted to `int` without loss. */
  function MemoryCap(limit: uint64, r: uint64): (c: int64)
    requires r > 0
    ensures c >= 0
    ensures c == (limit / 2) / r
    ensures c * r <= limit / 2 < (c + 1) * r
  {
    var half := limit / 2;
    var quotient := half / r;
    DivBounds(half, r);
    MulMonotone(1, r, quotient);
    assert quotient <= half < TWO_63;
    Int64OfUint64(quotient)
  }

  /** `Workers()`: the CPU cap or the memory cap, whichever is smaller. It
      may be 0; there is no floor. */
  function Workers(h: Host, r: uint64): (w: int64)
    requires r > 0
    ensures w == Min(AlmostAllCPUs(h.gomaxprocs), (MaxMemory(h) / 2) / r)
    ensures 0 <= w <= AlmostAllCPUs(h.gomaxprocs)
    ensures w * r <= MaxMemory(h) / 2
    ensures w == AlmostAllCPUs(h.gomaxprocs) || MaxMemory(h) / 2 < (w + 1) * r
  {
    var cpus := AlmostAllCPUs(h.gomaxprocs);
    var memoryCap := MemoryCap(MaxMemory(h), r);
    MulMonotone(Min(cpus, memoryCap), memoryCap, r);
    Min(cpus, memoryCap)
  }

  /** `WorkersHalf()`: half of `Workers()`, rounded down, but at least 1.
      (`Workers()` is never negative, so Go's truncating division and
      Dafny's agree here.) */
  function WorkersHalf(h: Host, r: uint64): (k: int64)
    requires r > 0
    ensures k >= 1
    ensures Workers(h, r) >= 2 ==> 2 * k <= Workers(h, r) < 2 * k + 2
    ensures Workers(h, r) < 2 ==> k == 1
  {
    Max(1, Workers(h, r) / 2)
  }

  /** `WorkersQuarter()`: a quarter of `Workers()`, rounded down, but at least 1. */
  function WorkersQuarter(h: Host, r: uint64): (k: int64)
    requires r > 0
    ensures k >= 1
    ensures Workers(h, r) >= 4 ==> 4 * k <= Workers(h, r) < 4 * k + 4
    ensures Workers(h, r) < 4 ==> k == 1
  {
    Max(1, Workers(h, r) / 4)
  }

  /** The scaled-down counts are ordered, and neither exceeds the base
      count floored at 1. */
  lemma ScaledCountsOrdered(h: Host, r: uint64)
    requires r > 0
    ensures 1 <= WorkersQuarter(h, r) <= WorkersHalf(h, r) <= Max(1, Workers(h, r))
  {
  }

  /** A per-worker estimate that is larger never allows more workers. */
  lemma WorkersAntitoneInRam(h: Host, r1: uint64, r2: uint64)
    requires 0 < r1 <= r2
    ensures Workers(h, r2) <= Workers(h, r1)
    ensures WorkersHalf(h, r2) <= WorkersHalf(h, r1)
    ensures WorkersQuarter(h, r2) <= WorkersQuarter(h, r1)
  {
    DivAntitone(MaxMemory(h) / 2, r1, r2);
  }

  /** A memory limit that is larger never allows fewer workers, for the same
      CPU setting. */
  lemma WorkersMonotoneInMemory(h1: Host, h2: Host, r: uint64)
    requires r > 0
    requires h1.gomaxprocs == h2.gomaxprocs
    requires MaxMemory(h1) <= MaxMemory(h2)
    ensures Workers(h1, r) <= Workers(h2, r)
    ensures WorkersHalf(h1, r) <= WorkersHalf(h2, r)
    ensures WorkersQuarter(h1, r) <= WorkersQuarter(h2, r)
  {
    DivMonotone(MaxMemory(h1) / 2, MaxMemory(h2) / 2, r);
  }

  /** No floor: when half the limit is less than one worker's RAM, there are
      no workers, while the scaled-down counts are still 1. */
  lemma NoWorkersWhenMemoryShort(h: Host, r: uint64)
    requires r > 0
    requires MaxMemory(h) / 2 < r
    ensures Workers(h, r) == 0
    ensures WorkersHalf(h, r) == 1 && WorkersQuarter(h, r) == 1
  {
    DivOfSmaller(MaxMemory(h) / 2, r);
  }

  /** With enough memory for every CPU but one, the CPU cap decides. */
  lemma CpuCapDecides(h: Host, r: uint64)
    requires r > 0
    requires AlmostAllCPUs(h.gomaxprocs) * r <= MaxMemory(h) / 2
    ensures Workers(h, r) == AlmostAllCPUs(h.gomaxprocs)
  {
    DivIsMax(MaxMemory(h) / 2, r, AlmostAllCPUs(h.gomaxprocs));
  }

  /** A cgroup file holding a decimal number on its first line gives that
      number as the limit when it fits in 64 bits, wrapped around modulo 2^64
      when negative, and falls back to total memory when it does not fit. */
  lemma CgroupDecimalLimit(v: int, rest: seq<byte>, totalMemory: uint64, gomaxprocs: int64)
    ensures var h := Host(Contents(Decimal(v) + [NEWLINE] + rest), totalMemory, gomaxprocs);
            MaxMemory(h) == if InInt64(v) then Uint64OfInt64(v) else totalMemory
    ensures InInt64(v) && v < 0 ==>
              MaxMemory(Host(Contents(Decimal(v) + [NEWLINE] + rest), totalMemory, gomaxprocs)) == v + TWO_64
  {
    var line := Decimal(v);
    DecimalHasNoLineBreak(v);
    FirstLineOfTerminated(line, rest);
    AtoiOfDecimal(v);
  }

  lemma DecimalHasNoLineBreak(v: int)
    ensures NEWLINE !in Decimal(v)
    ensures Decimal(v)[|Decimal(v)| - 1] != CARRIAGE_RETURN
  {
    var s := Decimal(v);
    var digits := if v < 0 then Format(-v) else Format(v);
    assert s == if v < 0 then [MINUS] + digits else digits;
    assert forall i :: 0 <= i < |s| ==> s[i] == MINUS || IsDigit(s[i]);
  }

  /** On a cgroup v2 host without a memory limit, `memory.max` holds
      `max`: that does not parse, and the estimator uses total memory. */
  lemma UnlimitedCgroupFallsBack(rest: seq<byte>, totalMemory: uint64, gomaxprocs: int64)
    ensures MaxMemory(Host(Contents([109, 97, 120, NEWLINE] + rest), totalMemory, gomaxprocs)) == totalMemory
  {
    var data: seq<byte> := [109, 97, 120, NEWLINE] + rest;
    FirstLineOfTerminated([109, 97, 120], rest);
    AtoiRejects([109, 97, 120], 0);
  }

  /** A file that holds only a line break gives an empty first line, which
      does not parse: unlike an empty file, this falls back to total memory. */
  lemma BlankLineFallsBack(rest: seq<byte>, totalMemory: uint64, gomaxprocs: int64)
    ensures MaxMemory(Host(Contents([NEWLINE] + rest), totalMemory, gomaxprocs)) == totalMemory
  {
    FirstLineOfTerminated([], rest);
    assert [] + [NEWLINE] + rest == [NEWLINE] + rest;
  }

  /** An empty cgroup file is a limit of 0, not a fallback: whatever the
      host's memory, there are no workers, and the scaled-down counts are 1. */
  lemma EmptyCgroupFileMeansNoWorkers(totalMemory: uint64, gomaxprocs: int64, r: uint64)
    requires r > 0
    ensures var h := Host(Contents([]), totalMemory, gomaxprocs);
            MaxMemory(h) == 0 && Workers(h, r) == 0
            && WorkersHalf(h, r) == 1 && WorkersQuarter(h, r) == 1
  {
  }

  /** A negative limit in the cgroup file wraps around to at least 2^63
      bytes, so for the presets the memory cap stops mattering on any host
      with at most 2^31 CPUs. */
  lemma NegativeLimitLiftsMemoryCap(v: int, rest: seq<byte>, totalMemory: uint64, gomaxprocs: int64, r: uint64)
    requires MIN_INT64 <= v < 0
    requires 0 < r <= IndexSnapshot
    requires AlmostAllCPUs(gomaxprocs) <= 0x8000_0000
    ensures var h := Host(Contents(Decimal(v) + [NEWLINE] + rest), totalMemory, gomaxprocs);
            Workers(h, r) == AlmostAllCPUs(gomaxprocs)
  {
    var h := Host(Contents(Decimal(v) + [NEWLINE] + rest), totalMemory, gomaxprocs);
    CgroupDecimalLimit(v, rest, totalMemory, gomaxprocs);
    var c := AlmostAllCPUs(gomaxprocs);
    MulMonotone(c, 0x8000_0000, r);
    MulMonotone(r, IndexSnapshot, 0x8000_0000);
    CpuCapDecides(h, r);
  }

  /** The presets are positive and ordered. */
  lemma PresetsOrdered()
    ensures 0 < ReconstituteState < CompressSnapshot < IndexSnapshot
    ensures IndexSnapshot == 2 * CompressSnapshot == 4 * ReconstituteState
  {
  }

  /** 8 GiB of memory, no cgroup file, 8 CPUs: two index builders fit in
      half the memory, fewer than the 7 CPUs allow. */
  lemma IndexSnapshotOnEightGiB()
    ensures var h := Host(Unopenable, 8 * GB, 8);
            Workers(h, IndexSnapshot) == 2 && WorkersHalf(h, IndexSnapshot) == 1
  {
  }

  /** 1 GiB of memory: no index builder fits, but the scaled-down counts are 1. */
  lemma IndexSnapshotOnOneGiB(gomaxprocs: int64)
    ensures var h := Host(Unopenable, GB, gomaxprocs);
            Workers(h, IndexSnapshot) == 0
            && WorkersHalf(h, IndexSnapshot) == 1 && WorkersQuarter(h, IndexSnapshot) == 1
  {
  }
}
