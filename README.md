# Computer architecture simulator — verified model of the two engines

This project models, in Dafny, the two simulation engines of the
computer-architecture-simulator web application:

- the **cache engine** (`hooks/use-cache-state.tsx`): a 64-cell main memory
  whose cell `i` holds `i`, and an 8-line cache organised as direct-mapped
  (8 lines, tag = bits 3–5, index = bits 0–2), 2-way set-associative (4 sets
  of 2 ways, tag = bits 2–5, set = bits 0–1) or fully associative (8 lines,
  tag = whole address). `accessMemory` rejects out-of-range addresses, counts
  accesses and hits, refreshes the `accessTime` of a hit line, and on a miss
  fills the indexed line, the LRU way of the set, or the first invalid line
  else the LRU line. `initializeCache` and `resetCache` rebuild the empty cache.
- the **hypothetical accumulator machine** (`hooks/use-machine-state.tsx`):
  registers AC, PC, IR, MAR, MBR, a 16-cell memory, a program list, a running
  flag and a micro-step counter. `loadProgram` encodes `LOAD`/`STORE`/`ADD`
  lines as `0x1000|a`, `0x2000|a`, `0x3000|a` into the cell of their line
  index and seeds cells 10 and 11 with 5 and 3; `stepMachine` performs FETCH,
  DECODE or EXECUTE according to `currentStep % 3`, or stops the machine;
  `resetMachine` clears everything.

Modules:

- `JsBitwise` (`js_bitwise.dfy`): JavaScript's `&`, `|` and `>>` on integers,
  with ToInt32 wrap-around, and the facts the engines need about them.
- `CacheModel` (`cache_model.dfy`): the cache as values — decomposition,
  the hit/miss decision, the access, the invariant and the lemmas.
- `CacheEngine` (`cache_engine.dfy`): the hook's state as a class
  `CacheSimulator` whose methods update the fields in place, and the two scan
  loops (tag search, LRU search) as methods, each proved against `CacheModel`.
- `MachineModel` (`machine_model.dfy`): instruction words, loading, the
  micro-step transition `Step`, runs of several steps, and the lemmas.
- `MachineEngine` (`machine_engine.dfy`): the machine as a class `Machine`
  with its memory as an array that STORE writes in place, proved against
  `MachineModel` through the `State()` view.

The machine's FETCH computes every right-hand side from the state before the
step: `MAR ← PC`, `MBR ← memory[old MAR]`, `IR ← old MBR`. The instruction a
cycle executes is therefore the word fetched by the previous cycle (`Cycle`),
and the default program `LOAD 10 / ADD 11 / STORE 12 / LOAD 12` ends after
twelve steps with AC = 5, cell 12 still 0 and the machine stopped
(`DefaultProgramRun`). A textbook fetch-decode-execute cycle would end the
same program with AC = 8 and cell 12 = 8; this code's stale FETCH and
per-call stop check end it with AC = 5 and cell 12 = 0, and the model follows
the code.

## Model

| member | source | states |
|---|---|---|
| JsBitwise.LowBits | hooks/use-cache-state.tsx:93 | `x & (2^k - 1)` equals `x mod 2^k` for every integer `x` (k ≤ 31), including negative ones |
| JsBitwise.ShiftNonNegative | hooks/use-cache-state.tsx:94 | `x >> n` on a non-negative 32-bit integer is floor division by `2^n` |
| JsBitwise.HighNibble | hooks/use-machine-state.tsx:122 | `(x & 0xf000) >> 12` is bits 12–15 of `x`, `(x / 4096) mod 16`, for every integer |
| JsBitwise.OrInt | hooks/use-machine-state.tsx:55 | OR-ing a multiple of `2^k` with a value below `2^k` is their sum, when the sum fits in 31 bits |
| CacheModel.DirectDecomposition | hooks/use-cache-state.tsx:90-94 | for an address in 0..63, index in 0..7, tag in 0..7 and `address == tag*8 + index`: the split loses nothing |
| CacheModel.SetDecomposition | hooks/use-cache-state.tsx:118-122 | for an address in 0..63, set in 0..3, tag in 0..15 and `address == tag*4 + set` |
| CacheModel.EmptyCache | hooks/use-cache-state.tsx:36-62 | the cache built for a policy has that policy's shape (8 lines, or 4 sets of 2 ways) and every slot is the invalid line with tag, data and time 0 |
| CacheModel.FirstMatch | hooks/use-cache-state.tsx:131-141 | the hit scan returns the first valid line with the tag, and -1 exactly when no line matches |
| CacheModel.FirstInvalid | hooks/use-cache-state.tsx:188 | `findIndex(!valid)`: the first invalid line, -1 exactly when all lines are valid |
| CacheModel.LruIndex | hooks/use-cache-state.tsx:147-154 | the scan with strict `<` returns a line of minimal accessTime, and every lower line has a strictly larger one (ties go to the lowest index) |
| CacheModel.Decide | hooks/use-cache-state.tsx:90-207 | the slot used belongs to the policy's shape and may hold the address; the access hits if and only if some eligible slot holds the address's tag, and a hit slot does hold it |
| CacheModel.Access | hooks/use-cache-state.tsx:100-207 | exactly one slot changes: every other slot is unchanged; the slot ends valid with the address's tag and accessTime = the access count; its data is the old data on a hit and the memory cell on a miss |
| CacheModel.EmptyCacheInv | hooks/use-cache-state.tsx:36-70 | the empty cache satisfies the invariant at count 0 and caches no address |
| CacheModel.HitData | hooks/use-cache-state.tsx:102-106 | under the invariant, a hit line holds the addressed memory cell's value |
| CacheModel.AccessKeepsInv | hooks/use-cache-state.tsx:82-214 | an access preserves the invariant: valid lines hold an address that maps to their slot with their tag, times lie in 1..count, invalid lines have time 0, and no address is cached twice |
| CacheModel.RepeatAccessHits | hooks/use-cache-state.tsx:100-207 | accessing the same address again right away hits the same slot, which holds the address's value |
| CacheModel.SetAssociativeVictim | hooks/use-cache-state.tsx:143-163 | a set-associative miss replaces a way of the address's set with minimal accessTime, lower ways strictly larger, and an invalid way whenever the set has one |
| CacheModel.FullyAssociativeVictim | hooks/use-cache-state.tsx:184-207 | a fully-associative miss replaces the first invalid line, or when all are valid the lowest-index line of minimal accessTime |
| CacheModel.DirectConflict | hooks/use-cache-state.tsx:100-117 | two addresses with the same index and different tags evict each other under direct mapping |
| CacheModel.SetAssociativeLru | hooks/use-cache-state.tsx:128-163 | from an empty cache, three tags of one set fill way 0, way 1, then evict way 0; the first address misses again and the second still hits way 1 |
| CacheEngine.FindTag | hooks/use-cache-state.tsx:131-141 | the loop with early exit returns `FirstMatch` of the lines |
| CacheEngine.FindLru | hooks/use-cache-state.tsx:147-154 | the replacement loop returns `LruIndex` of the lines |
| CacheEngine.AccessDirect | hooks/use-cache-state.tsx:90-117 | the direct branch makes the decision `Decide` and produces the cache `Access` |
| CacheEngine.AccessSetAssociative | hooks/use-cache-state.tsx:118-163 | the set-associative branch makes the decision `Decide` and produces the cache `Access` |
| CacheEngine.AccessFullyAssociative | hooks/use-cache-state.tsx:164-207 | the fully-associative branch makes the decision `Decide` and produces the cache `Access` |
| CacheEngine.AccessCache | hooks/use-cache-state.tsx:90-208 | dispatch on the policy: the decision and cache of the chosen branch |
| CacheEngine.CacheSimulator.constructor | hooks/use-cache-state.tsx:22-28 | the initial state with its first effect applied: direct policy, empty cache, zero counters, memory cell i holds i, invariant established |
| CacheEngine.CacheSimulator.InitializeCache | hooks/use-cache-state.tsx:36-70 | the cache becomes the empty cache of the policy, both counters 0, memory kept |
| CacheEngine.CacheSimulator.SetMappingType | hooks/use-cache-state.tsx:72-74 | choosing a different policy rebuilds the empty cache for it and clears the counters; choosing the current one again changes nothing, since the effect only runs on a change |
| CacheEngine.CacheSimulator.ResetCache | hooks/use-cache-state.tsx:217-221 | policy and memory kept, empty cache, counters 0 (so a second reset changes nothing) |
| CacheEngine.CacheSimulator.AccessMemory | hooks/use-cache-state.tsx:76-215 | out of range: an error result and no field changes; in range: access count + 1, hit count + 1 exactly on a hit, the cache becomes `Access` at the new count, and the invariant with hits ≤ accesses is kept |
| CacheEngine.CacheSimulator.AccessInRange | hooks/use-cache-state.tsx:84-215 | an in-range access: counts it, reads the backing cell (which holds its own index), installs `Access` at the new count, counts a hit exactly when `Decide` says hit, and keeps the invariant |
| MachineModel.Opcode | hooks/use-machine-state.tsx:122 | the opcode field lies in 0..15 for every integer word |
| MachineModel.OperandAddress | hooks/use-machine-state.tsx:123 | the address field lies in 0..4095 for every integer word |
| MachineModel.DecodeFields | hooks/use-machine-state.tsx:122-123 | the mask-and-shift decoding equals the arithmetic one: `(ir / 4096) mod 16` and `ir mod 4096` |
| MachineModel.DecodeAgrees | hooks/use-machine-state.tsx:141-144 | the opcode the machine branches on selects the same operation and address as the reference reading `DecodeWord` |
| MachineModel.EncodeDecode | hooks/use-machine-state.tsx:53-60 | round trip: encoding a mnemonic with an operand in 0..4095 and decoding gives back LOAD/STORE/ADD with that operand; other mnemonics give the no-op |
| MachineModel.EntriesLines | hooks/use-machine-state.tsx:45-64 | the program lists each non-blank line once, in line order, with its own line index, mnemonic and operand; blank lines get no entry but use up an index |
| MachineModel.LoadedLayout | hooks/use-machine-state.tsx:42-68 | after loading, cell 10 holds 5, cell 11 holds 3, any other cell holds the encoding of the line with its index, or 0 |
| MachineModel.LoadedDecodes | hooks/use-machine-state.tsx:53-63 | every loaded entry outside cells 10 and 11 with an operand in 0..4095 decodes from memory to its own mnemonic and operand |
| MachineModel.Step | hooks/use-machine-state.tsx:88-188 | a stopped machine only has `running` cleared; a running step keeps running, advances the counter by one, keeps the program and memory size, and changes memory only by an EXECUTE of STORE at MAR |
| MachineModel.StaysStopped | hooks/use-machine-state.tsx:89-93 | once not running or PC ≥ program length, any number of steps only clears `running` |
| MachineModel.FetchIsStale | hooks/use-machine-state.tsx:103-119 | FETCH sets MAR to PC, MBR to the cell at the old MAR, IR to the old MBR, PC + 1, and leaves AC and memory alone |
| MachineModel.DecodeOnlyMar | hooks/use-machine-state.tsx:120-140 | DECODE changes only MAR, to `IR mod 4096`, and the counter |
| MachineModel.ExecuteLoad | hooks/use-machine-state.tsx:148-157 | EXECUTE with opcode 1: MBR and AC get the cell at MAR |
| MachineModel.ExecuteStore | hooks/use-machine-state.tsx:158-167 | EXECUTE with opcode 2: MBR gets AC and the cell at MAR is overwritten with AC |
| MachineModel.ExecuteAdd | hooks/use-machine-state.tsx:168-177 | EXECUTE with opcode 3: MBR gets the cell at MAR and AC gets AC plus it |
| MachineModel.ExecuteOther | hooks/use-machine-state.tsx:141-179 | EXECUTE with any other opcode changes nothing but the counter |
| MachineModel.Cycle | hooks/use-machine-state.tsx:100-183 | three steps from a FETCH with PC still inside the program after it equal one reference instruction cycle `AfterCycle`: the word in MBR at the start (fetched one cycle earlier) is executed at its address |
| MachineModel.DefaultLoaded | components/hypothetical-machine.tsx:14-17 | loading the default program gives four entries, `0x100A` in cell 0, 5 in cell 10, and 0 in cells 5 and 12 |
| MachineModel.DefaultProgramRun | components/hypothetical-machine.tsx:14-17 | twelve steps of the loaded default program end in exactly one state: AC = 5, PC = 4, IR = 5, MAR = 3, MBR = 0, memory as loaded (so cell 12 stays 0), stopped after 10 counted micro-steps |
| MachineEngine.Parse | hooks/use-machine-state.tsx:42-64 | the parse loop fills a fresh 16-cell array with `Cells` of the lines and builds `Entries` of the lines |
| MachineEngine.Machine.constructor | hooks/use-machine-state.tsx:18-28 | the initial machine is the reset state |
| MachineEngine.Machine.LoadProgram | hooks/use-machine-state.tsx:39-86 | the machine's state becomes `LoadedState(lines)`: parsed memory seeded at 10 and 11, the program, registers 0, running, counter 0 |
| MachineEngine.Machine.StepMachine | hooks/use-machine-state.tsx:88-188 | the machine's state becomes `Step` of the old state, STORE writing the same memory array in place |
| MachineEngine.Machine.ResetMachine | hooks/use-machine-state.tsx:190-206 | the machine's state becomes the reset state: registers 0, 16 zero cells, empty program, stopped, counter 0 |

## Left out

- Explanation HTML, the log lines, the highlighted registers and memory cells, and the hit-rate percentage are presentation only and are not modelled.
- React plumbing is not modelled: `setState` updaters run at once, in order; the snapshot a handler reads and the `prev` its updater receives are taken to be the same state.
- CacheEngine.CacheSimulator.AccessMemory: the hook's shallow copy shares the cache array (and, set-associative, its sets) and their line objects with the previous state, so the old state is mutated too; the model keeps the cache as a value and does not capture that aliasing.
- CacheEngine.CacheSimulator.AccessMemory: addresses are integers. A `NaN` address (what `parseInt` gives for input such as ".5" in components/cache-simulator.tsx:21) passes the hook's range check at hooks/use-cache-state.tsx:77, because both comparisons are false, and is then counted and cached under line 0 or under a tag that never matches again; the model does not capture that input.
- CacheEngine.CacheSimulator.constructor: the hook starts with an empty cache list until its effect runs; the model applies the effect in the constructor, so an access before initialisation (a runtime error in the hook) is not modelled.
- CacheEngine.CacheSimulator.InitializeCache: requires the policy passed to be the current one, which is how the hook calls it; building a cache of another shape than the policy is not modelled.
- Program text handling (trim, upper-casing, splitting at spaces, `parseInt`) is not modelled: lines arrive as `Blank` or `Instr(mnemonic, operand)`; a non-numeric operand (NaN) is not modelled.
- MachineEngine.Machine.LoadProgram: requires every non-blank line to have an index below 16; the hook would grow the memory array past 16 cells.
- MachineModel.Step: requires the cell a step reads or writes to lie inside memory; the hook would read `undefined` or grow the array. `Run` returns `None` when that happens.
- Machine arithmetic is on unbounded integers; JavaScript's floating-point numbers lose precision beyond 2^53, which is not modelled.
- MachineModel.EncodeDecode: the round trip is stated for operands in 0..4095 only; larger or negative operands spill into the opcode field.
