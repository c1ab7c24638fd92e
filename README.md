# Worker-count estimator

A Dafny model of erigon's worker-count estimator (`eth/ethconfig/estimate`).
The estimator decides how many memory-heavy workers may run at once:
index builders, snapshot compressors and state reconstitution.

- It reads the memory the process may use. That is the cgroup v2 limit from the first line of `/sys/fs/cgroup/memory.max`, or, when that read fails, the host's total memory.
- It halves that limit and divides by the estimated RAM of one worker.
- It caps the result at all CPUs but one (`GOMAXPROCS - 1`, at least 1).
- `WorkersHalf` and `WorkersQuarter` scale the count down and floor it at 1.

The host state becomes an explicit `Host` value:
- what opening and scanning the cgroup file gave;
- the total memory;
- the `GOMAXPROCS` setting.

Each Go method becomes a function of that host and the per-worker estimate `r`.

Modules:
- `GoTypes` (gotypes.dfy): Go's `uint64` and 64-bit `int`, with the conversions and the subtraction wrap-around written out, `cmp.Min`/`cmp.Max`, and a `Result` for a `(value, error)` pair.
- `LineScanner` (scanner.dfy): the first token of `bufio.Scanner` with its default line splitting. It cuts at the first `\n` and drops one trailing `\r`, whether or not a newline follows. An empty input gives no token.
- `Strconv` (strconv.dfy): `strconv.Atoi` in base 10, meaning an optional sign, one or more digits, and the 64-bit range. It comes with a decimal formatter (`Format`, `Decimal`) and a lemma that `Atoi` reads back its output.
- `DivisionFacts` and `Estimate` (estimate.dfy): the estimator itself and what is proved about it.

Edge cases of `fetchCgroupMemoryMax` that the model keeps:
- An empty cgroup file makes `Scan()` return false with a nil `Err()`. The function then returns `(0, nil)`, so the limit is 0 with no fallback, and `Workers()` is 0 (`EmptyCgroupFileMeansNoWorkers`).
- `strconv.Atoi` accepts a sign. A negative value is cast to `uint64` and wraps around to at least 2^63 (`CgroupDecimalLimit`, `NegativeLimitLiftsMemoryCap`).
- A file holding only a line break has the empty string as its first line. That does not parse, so the estimator falls back to total memory (`BlankLineFallsBack`).

## Model

| member | source | states |
|---|---|---|
| `GoTypes.Uint64OfInt64` | eth/ethconfig/estimate/esitmated_ram.go:57 | `uint64(x)` is congruent to `x` modulo 2^64; it is unchanged for non-negative `x` and at least 2^63 for negative `x` |
| `GoTypes.Int64OfUint64` | eth/ethconfig/estimate/esitmated_ram.go:27 | `int(x)` is congruent to `x` modulo 2^64; it is non-negative exactly when `x < 2^63`, and then equals `x` |
| `GoTypes.Sub64` | eth/ethconfig/estimate/esitmated_ram.go:41 | 64-bit subtraction is congruent to the true difference, and equals it when the difference fits |
| `GoTypes.Min` | eth/ethconfig/estimate/esitmated_ram.go:27 | `cmp.Min` is one of its arguments and no larger than either |
| `GoTypes.Max` | eth/ethconfig/estimate/esitmated_ram.go:29-30 | `cmp.Max` is one of its arguments and no smaller than either |
| `LineScanner.LineEnd` | eth/ethconfig/estimate/esitmated_ram.go:51-52 | the scanned line stops at the first newline, or at the end of the data when there is none |
| `LineScanner.DropCR` | eth/ethconfig/estimate/esitmated_ram.go:51-52 | the line loses exactly one trailing carriage return when it has one, and nothing else |
| `LineScanner.FirstLine` | eth/ethconfig/estimate/esitmated_ram.go:52 | `Scan()` yields no token exactly when the file is empty; otherwise the token is a newline-free prefix of the data |
| `LineScanner.FirstLineOfTerminated` | eth/ethconfig/estimate/esitmated_ram.go:52-53 | a line followed by `\n` and anything else scans back to that line, and so does a non-empty line at the end of the file |
| `LineScanner.FirstLineOfCRLF` | eth/ethconfig/estimate/esitmated_ram.go:52-53 | any newline-free line ended by `\r\n`, or a last line ended by `\r`, scans back to the line without that one `\r`; carriage returns before it stay |
| `LineScanner.DoubleCarriageReturn` | eth/ethconfig/estimate/esitmated_ram.go:52-53 | the first line `12\r\r\n` scans to `12\r`: only the last carriage return is dropped |
| `Strconv.Atoi` | eth/ethconfig/estimate/esitmated_ram.go:53-56 | a successful parse came from a non-empty string of digits after at most one sign; a `-` gives a value of at most 0, anything else a value of at least 0; every failure is a parse error |
| `Strconv.AtoiOfDecimal` | eth/ethconfig/estimate/esitmated_ram.go:53-56 | round trip: the decimal text of every integer in the 64-bit range parses back to that integer, and the text of every integer outside it is rejected |
| `Strconv.AtoiOfZeroPadded` | eth/ethconfig/estimate/esitmated_ram.go:53 | leading zeros, with no sign, a `+` or a `-` before them, do not change the value parsed; a padded value outside the 64-bit range is rejected |
| `Strconv.AtoiRejects` | eth/ethconfig/estimate/esitmated_ram.go:53-55 | a byte that is neither a digit nor a leading sign makes the parse fail (so `max` fails) |
| `Strconv.AtoiRejectsBareSign` | eth/ethconfig/estimate/esitmated_ram.go:53-55 | the empty string and a sign alone fail to parse |
| `Estimate.FetchCgroupMemoryMax` | eth/ethconfig/estimate/esitmated_ram.go:44-60 | the read fails exactly when the file cannot be opened, the scanner errs, or a non-empty file's first line does not parse; an empty file gives 0 with no error; a parsed value is returned modulo 2^64 |
| `Estimate.MaxMemory` | eth/ethconfig/estimate/esitmated_ram.go:19-23 | the fallback decision by case: an open or read failure or an unparsable first line gives total memory; an empty file gives 0; a parsed first line `v` gives `uint64(v)` |
| `Estimate.AlmostAllCPUs` | eth/ethconfig/estimate/esitmated_ram.go:40-42 | always at least 1; `GOMAXPROCS - 1` when `GOMAXPROCS >= 2`; 1 when `GOMAXPROCS <= 2`; at the 64-bit minimum the subtraction wraps to the maximum |
| `Estimate.MemoryCap` | eth/ethconfig/estimate/esitmated_ram.go:26-27 | the memory cap is `(limit/2)/r`, the largest count of `r`-byte workers fitting in half the limit, and the `int` conversion never loses it |
| `Estimate.Workers` | eth/ethconfig/estimate/esitmated_ram.go:17-28 | `Workers() == min(AlmostAllCPUs(), (maxMemory/2)/r)`: never negative, never above the CPU cap, never above half the memory, and maximal between the two caps |
| `Estimate.WorkersHalf` | eth/ethconfig/estimate/esitmated_ram.go:29 | at least 1; otherwise the largest `k` with `2k <= Workers()` |
| `Estimate.WorkersQuarter` | eth/ethconfig/estimate/esitmated_ram.go:30 | at least 1; otherwise the largest `k` with `4k <= Workers()` |
| `Estimate.ScaledCountsOrdered` | eth/ethconfig/estimate/esitmated_ram.go:29-30 | `1 <= WorkersQuarter() <= WorkersHalf() <= max(1, Workers())` |
| `Estimate.WorkersAntitoneInRam` | eth/ethconfig/estimate/esitmated_ram.go:26-30 | a larger per-worker estimate never increases any of the three counts |
| `Estimate.WorkersMonotoneInMemory` | eth/ethconfig/estimate/esitmated_ram.go:26-30 | with the same `GOMAXPROCS`, a larger resolved memory limit never decreases any of the three counts |
| `Estimate.NoWorkersWhenMemoryShort` | eth/ethconfig/estimate/esitmated_ram.go:26-30 | no floor: when half the limit is below one worker's RAM, `Workers()` is 0 while the half and quarter counts are 1 |
| `Estimate.CpuCapDecides` | eth/ethconfig/estimate/esitmated_ram.go:26-27 | when half the limit holds `AlmostAllCPUs()` workers, the CPU cap is the result |
| `Estimate.CgroupDecimalLimit` | eth/ethconfig/estimate/esitmated_ram.go:52-57 | a cgroup file whose first line is the decimal `v` yields `uint64(v)` when `v` fits in 64 bits, which is `v + 2^64` for negative `v`; otherwise it yields total memory |
| `Estimate.UnlimitedCgroupFallsBack` | eth/ethconfig/estimate/esitmated_ram.go:19-23 | the cgroup v2 "no limit" content `max` falls back to total memory |
| `Estimate.BlankLineFallsBack` | eth/ethconfig/estimate/esitmated_ram.go:52-55 | a file that starts with a blank line falls back to total memory |
| `Estimate.EmptyCgroupFileMeansNoWorkers` | eth/ethconfig/estimate/esitmated_ram.go:52-59 | an empty file is a limit of 0 with no fallback: `Workers()` is 0, and the half and quarter counts are 1, whatever the total memory |
| `Estimate.NegativeLimitLiftsMemoryCap` | eth/ethconfig/estimate/esitmated_ram.go:57 | a negative cgroup value wraps so high that, for estimates up to 2 GiB and at most 2^31 CPUs, the CPU cap alone decides |
| `Estimate.PresetsOrdered` | eth/ethconfig/estimate/esitmated_ram.go:32-36 | the presets are 2 GiB, 1 GiB and 512 MiB: positive, and each twice the next |
| `Estimate.IndexSnapshotOnEightGiB` | eth/ethconfig/estimate/esitmated_ram.go:33 | with 8 GiB, no cgroup file and 8 CPUs, two index builders are allowed and the half count is 1 |
| `Estimate.IndexSnapshotOnOneGiB` | eth/ethconfig/estimate/esitmated_ram.go:33 | with 1 GiB and no cgroup file, no index builder is allowed whatever the CPUs, while the half and quarter counts are 1 |

## Left out

- File I/O: `os.Open`, `defer file.Close()` and the scanner's reads are not modelled. Their outcome is an input, as `CgroupFile`: the file cannot be opened, the first `Scan()` reports an error, or the bytes that were read.
- `bufio.Scanner`'s 64 KiB token limit is not modelled. In Go, a first line longer than that is a scanner error. In the model it must be given as `Unreadable`, because `Contents` never produces that error.
- A read error after some bytes have arrived is not modelled separately. It corresponds to `Contents` of the bytes the scanner received.
- `memory.TotalMemory()` and `runtime.GOMAXPROCS(-1)` are host introspection: they are the `Host` fields `totalMemory` and `gomaxprocs`. The Go runtime never reports a `GOMAXPROCS` below 1, but the model admits any 64-bit value.
- Go's error values are not modelled. They become the coarse `Cause`, and `Atoi`'s syntax and range errors are one `ParseFailed`, because the estimator only tests `err != nil`.
- `Strconv.Atoi` models only what `strconv.Atoi` does in base 10 on a 64-bit platform. Go's `int` is taken to be 64 bits wide.
- `datasize` units are not modelled as a library. The presets use its binary values as constants: 2 GiB, 1 GiB and 512 MiB.
- A per-worker estimate of 0 makes Go panic on the division. The model requires `r > 0` instead.
- Concurrency, and limits going stale between repeated calls, are not modelled: each call re-reads the host state, and the model takes that state as one value per call.
