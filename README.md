# pcb2gcode core, modelled in Dafny

pcb2gcode turns the holes of a KiCad board into drilling and routing work.
This project models the part of it that decides which cutting tools are used,
and where they sit:

- **the tool rack** (`Rack`). A list of 1-based slots, each empty or holding a
  cutting tool.
  - A rack of size 0 is manual and grows by appending.
  - A bounded rack places a tool at an explicit slot or at the first slot of the
    right-most run of empty slots. It appends a slot when none is free.
- **the feature inventory** (`Inventory`). The holes of the board, filed as round
  holes or oblong slots into plated and non-plated buckets. Each bucket is an
  insertion-ordered dictionary keyed by diameter. The buckets can be selected
  with an `Operations` mask.
- **cutting tools** (`CuttingTools`): their identity, their machining order
  (drill bits before router bits, then by diameter), their hash, the
  nearest-size search in stock, and the `request` decision tree that falls back
  to routing.
- **the `Operations` flag algebra**.
- **the linked chains of the machining stage** (`Machining`): moves linked by
  `next`, machining operations linked by `next_op`, and the end coordinate of a
  cycle.
- **table interpolation** (`Lookup`, `interpolate_lookup`). Values outside the
  keys are clamped to the nearest end; values between keys are blended linearly.
- **the quantity/unit algebra** (`Units`).
- **the configuration helpers** (`Config`): building the default configuration
  from a JSON schema, and splitting a `unit(default)` annotation.

Representation choices:

- A `Length` is an integer count of nanometres. Coordinates, unit factors and
  table values are real numbers; floating-point rounding is not modelled.
- Configuration values that the program reads from global settings are explicit
  parameters: stock lists, the downsizing allowance, the contour router
  diameter and the clean-exit limit.
- Trigonometry and the square root are taken as uninterpreted functions, passed
  in a `Trig` value.
- Python exceptions are the `Failure` side of a `Result`.
- The rack, the inventory, the moves and the machining operations are classes
  whose methods change their fields in place. Everything else is functions over
  values.

The rack follows `pcb2gcode/rack.py` as written. That rack has no placement
cursor, no invalidated slots, no sort and no round-robin wrap:

- automatic placement takes the first slot of the right-most run of empty slots;
- an explicit slot may be occupied, which only draws a warning;
- `len` counts empty slots too;
- a full bounded rack grows by one slot on automatic placement.

Where the code is evidently not what its authors meant, the model has both the
behaviour as written and the corrected behaviour (see "## Findings"). The rest
of the model uses the corrected one.

## Model

| member | source | states |
|---|---|---|
| Operations.BasicFlagsAreDistinctBits | pcb2gcode/operations.py:6-8 | PTH, NPTH and OUTLINE are the single bits 1, 2 and 4, pairwise disjoint |
| Operations.CombinedFlags | pcb2gcode/operations.py:10-12 | FIRST is PTH, FINAL is NPTH\|OUTLINE = 6, ALL = 7 and `ALL & f == f` for every flag |
| Operations.SelectionByMasks | pcb2gcode/operations.py:4-12 | ALL selects every non-empty flag, FIRST selects neither NPTH nor OUTLINE, FINAL selects NPTH and OUTLINE but not PTH |
| CuttingTools.Order | pcb2gcode/cutting_tools.py:244-262 | the order is 1 exactly for drill bits and 2 exactly for router bits |
| CuttingTools.Equal | pcb2gcode/cutting_tools.py:88-89 | two tools are equal iff they are of the same class with the same diameter |
| CuttingTools.Less | pcb2gcode/cutting_tools.py:91-96 | `__lt__`: tools of one class compare by diameter, and a drill bit sorts before a router bit whatever the diameters |
| CuttingTools.LessIrreflexive | pcb2gcode/cutting_tools.py:91-96 | no tool sorts before itself |
| CuttingTools.LessTransitive | pcb2gcode/cutting_tools.py:91-96 | the tool order is transitive |
| CuttingTools.LessTotal | pcb2gcode/cutting_tools.py:91-96 | two different tools are ordered exactly one way round |
| CuttingTools.DrillsBeforeRouters | pcb2gcode/cutting_tools.py:244-262 | every drill bit sorts before every router bit, whatever the diameters |
| CuttingTools.Hash | pcb2gcode/cutting_tools.py:277-279 | a drill hashes as its diameter; a router's hash is never positive and has the diameter's magnitude |
| CuttingTools.HashAgreesWithEquality | pcb2gcode/cutting_tools.py:240-241 | equal tools hash equally |
| CuttingTools.HashSeparatesKinds | pcb2gcode/cutting_tools.py:277-279 | a drill and a router of the same positive diameter hash differently |
| CuttingTools.BestCandidate | pcb2gcode/cutting_tools.py:104-141 | reference answer of the stock search: the largest stock size within `v - v*down/100 .. v`, which is positive; None iff there is none |
| CuttingTools.Nearest | pcb2gcode/cutting_tools.py:104-141 | the found tool has the requested class, a stock diameter within the band and never above the request; None iff no stock size is in the band |
| CuttingTools.NearestExact | pcb2gcode/cutting_tools.py:135-137 | a positive diameter that is in stock is found exactly |
| CuttingTools.SortDescending | pcb2gcode/cutting_tools.py:116 | `reversed(sorted(...))` is descending and a permutation of the stock |
| CuttingTools.GetFromStock | pcb2gcode/cutting_tools.py:104-141 | the descending loop with its skip, break-below-bound and break-on-exact steps returns exactly the reference answer |
| CuttingTools.BelowBoundEndsSearch | pcb2gcode/cutting_tools.py:127-129 | once a size is below the downsizing bound, no later (smaller) size can be picked, so breaking is safe |
| CuttingTools.StockSizeRange | pcb2gcode/cutting_tools.py:143-149 | the smallest and largest stock sizes, both in stock and bounding it; IndexError iff the stock is empty |
| CuttingTools.RouteHoles | pcb2gcode/cutting_tools.py:166-183 | the contour router when it fits the hole, otherwise the nearest stock router within the band, otherwise None; never wider than the hole |
| CuttingTools.Request | pcb2gcode/cutting_tools.py:157-238 | `request` only raises IndexError, and a tool it hands back is of the requested class or a router bit |
| CuttingTools.RequestFailsOnlyOnEmptyStock | pcb2gcode/cutting_tools.py:185-195 | `request` raises, with IndexError, exactly when the stock of the tool's class is empty |
| CuttingTools.RequestNeverOversizes | pcb2gcode/cutting_tools.py:157-238 | a tool returned by `request` is never wider than the one asked for, and is of the same class or a router |
| CuttingTools.RequestKeepsRouters | pcb2gcode/cutting_tools.py:185-238 | a router request is only ever answered with a router |
| CuttingTools.RequestRefusals | pcb2gcode/cutting_tools.py:185-203 | without a stock match, a tool below the smallest size is refused, and so is a router above the largest |
| CuttingTools.RequestRoutesUnmatched | pcb2gcode/cutting_tools.py:205-220 | without a stock match, a drill above the largest size or any tool within the stock range is routed |
| CuttingTools.RequestMatched | pcb2gcode/cutting_tools.py:222-238 | a stock match is returned as it is, unless its diameter exceeds the clean-exit limit, in which case it is routed |
| CuttingTools.RequestExactStock | pcb2gcode/cutting_tools.py:222-238 | an exact positive stock size within the clean-exit limit comes back unchanged |
| Rack.Occurs | pcb2gcode/rack.py:50-51 | membership: some slot holds an equal tool |
| Rack.RemoveFirst | pcb2gcode/rack.py:167-168 | `list.remove`: ValueError iff no slot matches; otherwise the first matching slot is gone and the slots before and after it are kept in order |
| Rack.LastRunStartUnique | pcb2gcode/rack.py:170-197 | at most one position starts the right-most run of empty slots |
| Rack.FreePosition | pcb2gcode/rack.py:181-197 | the free position is an empty slot that is slot 1 or follows an occupied slot, whose run of empty slots is followed only by occupied ones; None iff every slot is occupied |
| Rack.FreePositionIsEmpty | pcb2gcode/rack.py:181-197 | automatic placement never picks an occupied slot, and it finds one whenever a slot is empty |
| Rack.FillingWalksThroughRun | pcb2gcode/rack.py:170-197 | after filling the free position p, the next free position is p+1 if that slot is empty, and otherwise lies further left or does not exist |
| Rack.SlotIndex | pcb2gcode/rack.py:41-48 | `key - 1` indexing: slots 1..n map to 0..n-1, negative keys count from the end, IndexError iff the key is outside `1-n .. n` |
| Rack.Rack.constructor | pcb2gcode/rack.py:31-39 | `Rack(size=0)` holds exactly `size` empty slots (none for the default 0, a manual rack) and records its size |
| Rack.Rack.Length | pcb2gcode/rack.py:53-54 | `len` counts every slot, empty ones included, and each position up to it reads its slot |
| Rack.Rack.GetTool | pcb2gcode/rack.py:74-79 | None for a slot below 1 or above the length, otherwise the slot's content |
| Rack.Rack.Contains | pcb2gcode/rack.py:50-51 | `tool in rack` holds iff some position holds an equal tool |
| Rack.Rack.GetItem | pcb2gcode/rack.py:41-42 | slot `key` for 1..len; key 0 reads the last slot; IndexError exactly outside `1-len .. len` |
| Rack.Rack.SetItem | pcb2gcode/rack.py:44-45 | writes only the addressed slot, which then reads back the value; IndexError leaves the rack unchanged |
| Rack.Rack.DelItem | pcb2gcode/rack.py:47-48 | deletes the addressed slot and shifts the later slots down by one; IndexError leaves the rack unchanged |
| Rack.Rack.Keys | pcb2gcode/rack.py:68-69 | the slot list, with slot p at index p-1 |
| Rack.Rack.Items | pcb2gcode/rack.py:65-66 | one (content, position) pair per slot, positions 1..len, each agreeing with `get_tool` |
| Rack.Rack.Values | pcb2gcode/rack.py:71-72 | the positions 1..len in order |
| Rack.Rack.FindFreePosition | pcb2gcode/rack.py:170-197 | the backward scan returns the reference free position and changes nothing; with no empty slot it appends one and returns the new length when `extend` (the default), otherwise returns None |
| Rack.Rack.AddBit | pcb2gcode/rack.py:84-115 | manual rack: appends whatever the position. Bounded rack: ValueError and no change outside 1..len; an explicit slot is overwritten even if occupied; without a position (the default) the free position is filled, or a new slot appended. Only the placed slot changes, and the tool is then in the rack |
| Rack.Rack.RemoveBit | pcb2gcode/rack.py:167-168 | removal as intended: ValueError iff the tool is not in the rack; otherwise the first equal slot is deleted and later slots shift down |
| Rack.Rack.Clone | pcb2gcode/rack.py:56-63 | a fresh rack with the same slots; unbound (size 0) with the default `unbound=True`, the original size otherwise |
| Rack.ContainsAsWritten | pcb2gcode/rack.py:50-51 | membership as written: agrees with the intended test on a rack with no empty slot, and a True answer is always right |
| Rack.RemoveAsWritten | pcb2gcode/rack.py:167-168 | removal as written: success shortens the rack by one; failure is ValueError or AttributeError |
| Rack.RemoveAsWrittenWithoutGaps | pcb2gcode/rack.py:167-168 | on a rack with no empty slot, removal as written equals removal as intended |
| Rack.EmptySlotBreaksMembership | pcb2gcode/rack.py:50-51 | slots `[empty, t]`: t is in the rack, yet membership and removal as written raise AttributeError |
| Rack.ManualRackScenario | tests/test_rack.py:24-55 | a manual rack with five bits: slots 1..5 hold the bits in call order (slot 2 the 1.0 mm drill, slot 4 the 1.15 mm drill), `get_tool(0)` and `get_tool(6)` are None, the membership answers of the test (0.8 mm drill in, 4.0 mm router out), length 5 |
| Rack.AutomaticChangerScenario | tests/test_rack.py:58-71 | `Rack(4)`, one bit in slot 2, then three automatic placements land in slots 3, 4 and 1 |
| Inventory.MakeOblong | pcb2gcode/pcb_inventory.py:58-66 | an oblong of the given width whose `coord` is its start and whose end is kept |
| Inventory.OblongDistanceSymmetric | pcb2gcode/pcb_inventory.py:64-66 | an oblong's length does not depend on which end is its start |
| Inventory.HoleFor | pcb2gcode/pcb_inventory.py:116-135 | equal or missing `size_y` gives `Hole(size_x, coord)`; otherwise an oblong of width `min(size_x, size_y)`, narrower than the other size, with both ends symmetric about the pad centre |
| Inventory.OblongCentresAtHalfDifference | pcb2gcode/pcb_inventory.py:123-132 | when cos^2 + sin^2 = 1, both centres of an oblong lie half the difference of the two sizes away from the pad centre, whatever the angle |
| Inventory.SetDefaultAppend | pcb2gcode/pcb_inventory.py:86-90 | `setdefault(d, []).append(f)`: a new key goes after all others, an existing key's list gains f at its end, and every other bucket is unchanged |
| Inventory.SetDefaultAppendKeepsKeys | pcb2gcode/pcb_inventory.py:86-90 | filing a feature under its own diameter keeps every bucket holding only features of its key's diameter |
| Inventory.Update | pcb2gcode/pcb_inventory.py:92-102 | `dict.update`: the keys are the receiver's keys in their order followed by the argument's new keys in the argument's order; keys of the argument take its lists and the others keep theirs |
| Inventory.KeysNotIn | pcb2gcode/pcb_inventory.py:92-102 | the keys `update` adds are exactly those of the argument missing from the receiver, and they are distinct when the argument's keys are |
| Inventory.KeysNotInSplit | pcb2gcode/pcb_inventory.py:92-102 | picking out the new keys of a split key list gives the new keys of each part, one after the other |
| Inventory.KeptKeysKeepOrder | pcb2gcode/pcb_inventory.py:92-102 | two new keys keep their relative order among the keys `update` adds |
| Inventory.UpdateEmpty | pcb2gcode/pcb_inventory.py:94-97 | updating an empty dictionary copies the other one, order included |
| Inventory.UpdateKeepsKeys | pcb2gcode/pcb_inventory.py:92-102 | merging keeps every bucket keyed by its features' diameter |
| Inventory.Inventory.constructor | pcb2gcode/pcb_inventory.py:81-84 | both dictionaries start empty and the offset is kept |
| Inventory.Inventory.AddFeature | pcb2gcode/pcb_inventory.py:86-90 | the feature is filed under its diameter in the PTH or the NPTH dictionary and the other dictionary is untouched; the inventory stays ordered and keyed by diameter |
| Inventory.Inventory.AddHole | pcb2gcode/pcb_inventory.py:104-135 | `add_hole` files the hole or oblong of the pad in the PTH dictionary when `pth` (the default) and in the NPTH one otherwise, leaving the other dictionary untouched; `size_y` defaults to none and the angle to 0 |
| Inventory.Inventory.GetFeatures | pcb2gcode/pcb_inventory.py:92-102 | PTH only gives the PTH buckets, NPTH only gives the NPTH buckets, neither gives nothing, and both give the merged buckets; the result stays keyed by diameter |
| Inventory.MergedFeatures | pcb2gcode/pcb_inventory.py:96-100 | with both bits set, the diameters after the PTH ones are exactly the NPTH-only diameters, and any two of them come out in the same relative order as in the NPTH dictionary |
| Inventory.SquarePadScenario | pcb2gcode/pcb_inventory.py:116-122 | a square pad gives one round hole keyed by its size, filed as plated |
| Inventory.ViaScenario | pcb2gcode/pcb_inventory.py:104-122 | `add_hole(coord, d)` with every keyword left at its default files one round hole of diameter d at coord in the PTH dictionary and nothing in the NPTH one |
| Machining.Move.constructor | pcb2gcode/machining.py:68-72 | a move from start to end with no successor |
| Machining.Move.Last | pcb2gcode/machining.py:81-86 | following `next` reaches the last move of the chain, which has no successor (itself when there is none) |
| Machining.Move.Append | pcb2gcode/machining.py:74-79 | append as intended: the new move is linked after the last move, the other links are kept, and the result is again a chain |
| Machining.AppendCursorAsWritten | pcb2gcode/machining.py:76-78 | the cursor of `append` as written only ever stands on the first move or on its successor |
| Machining.AppendAsWrittenShortChain | pcb2gcode/machining.py:74-79 | on a chain of one or two moves, `append` as written reaches the last move |
| Machining.AppendAsWrittenNeverStops | pcb2gcode/machining.py:77-78 | on a chain of three or more moves, the cursor of `append` as written stays on the second move, whose successor is set, for every number of turns |
| Machining.Operation.constructor | pcb2gcode/machining.py:101-105 | an operation with its origin and tool and no follower |
| Machining.Operation.NoOperation | pcb2gcode/machining.py:143-146 | the placeholder operation has neither origin nor tool |
| Machining.Operation.RouteVector | pcb2gcode/machining.py:170-173 | a routed vector as intended: it starts where its first move starts and keeps that move |
| Machining.Operation.Then | pcb2gcode/machining.py:107-115 | `then` as intended: the new operation is linked after the last one of the cycle, the other links are kept, and the result is again a cycle |
| Machining.Operation.EndCoordinate | pcb2gcode/machining.py:117-125 | the recursive end-coordinate query (`first` defaulting to true) equals the reference end of the cycle, including the routed-vector fallback |
| Machining.EndOfPlainCycle | pcb2gcode/machining.py:117-125 | without routed vectors: a lone operation asked first has no end coordinate; otherwise the end is the origin of the last operation of the cycle |
| Machining.LoneVectorEndsAtLastMove | pcb2gcode/machining.py:175-182 | a routed vector without followers ends where the last move of its vector ends |
| Machining.ThenCursorAsWritten | pcb2gcode/machining.py:112-114 | the cursor of `then` as written only ever stands on the first operation or on its follower |
| Machining.ThenAsWrittenShortChain | pcb2gcode/machining.py:107-115 | on a cycle of one or two operations, `then` as written reaches the last operation |
| Machining.ThenAsWrittenNeverStops | pcb2gcode/machining.py:113-114 | on a cycle of three or more operations, the cursor of `then` as written stays on the second operation, whose follower is set |
| Machining.OpLess | pcb2gcode/machining.py:138-140 | operations compare exactly as their tools; a missing tool on the right raises AttributeError, and one on the left raises TypeError |
| Machining.OpLessIsStrictOrder | pcb2gcode/machining.py:138-140 | where tools exist, the operation order is irreflexive and transitive |
| Machining.MoveAttribute | pcb2gcode/machining.py:64-85 | `start` and `end` read the move's coordinates, `next` is the link to the following move, `__init__`, `append` and `last` are the class's methods, the attributes inherited from `object` are there too, and any other name raises AttributeError |
| Machining.RouteVectorAsWrittenFails | pcb2gcode/machining.py:171-172 | the `orgin` attribute the constructor reads raises AttributeError, while `start` is there |
| Lookup.InsertKey | pcb2gcode/utils.py:24 | inserting a new key into an increasing list keeps it increasing, adds exactly that key, and puts the smaller of it and the old head first |
| Lookup.SortedKeys | pcb2gcode/utils.py:24 | `sorted(table.keys())` is strictly increasing and a rearrangement of the keys (same multiset) |
| Lookup.BisectLeft | pcb2gcode/utils.py:25 | on an increasing list, every entry before the index is below the value and every entry from it on is at or above it |
| Lookup.Blend | pcb2gcode/utils.py:39-43 | the blended row is as long as the shorter row, and each component is `w` of the way from the upper row to the lower row |
| Lookup.InterpolateLookup | pcb2gcode/utils.py:17-45 | IndexError exactly on an empty table |
| Lookup.LookupSorted | pcb2gcode/utils.py:25-45 | once the keys are sorted, the lookup fails (IndexError) exactly when there are no keys |
| Lookup.LookupSortedBetween | pcb2gcode/utils.py:33-43 | over sorted keys, a value in `(ds[k-1], ds[k]]` blends the rows of exactly those two keys |
| Lookup.LookupBelowKeys | pcb2gcode/utils.py:28-29 | a value at or below the smallest key gets that key's row unchanged |
| Lookup.LookupAboveKeys | pcb2gcode/utils.py:30-31 | a value above the largest key gets that key's row unchanged |
| Lookup.NeighbourIndex | pcb2gcode/utils.py:24-35 | two keys `lo < hi` with no key strictly between them are consecutive in the sorted keys, so they are the lower and upper diameters for any value in `(lo, hi]` |
| Lookup.LookupNeighbours | pcb2gcode/utils.py:33-43 | between neighbouring keys the lookup returns the blend of their two rows with lower weight `(hi - value)/(hi - lo)` |
| Lookup.LookupBetweenKeys | pcb2gcode/utils.py:33-43 | between neighbouring keys, the result blends their rows with the lower weight `(hi - value)/(hi - lo)`, which lies in [0,1), and in (0,1) below hi |
| Lookup.WeightInRange | pcb2gcode/utils.py:39-40 | the lower weight lies in [0,1), and in (0,1) strictly between the keys |
| Lookup.LookupAtKey | pcb2gcode/utils.py:33-43 | a value equal to a key above the smallest one gets that key's row, cut to the length of its lower neighbour's row |
| Lookup.BlendAtZero | pcb2gcode/utils.py:39-43 | with weight 0 on the lower row the blend is the upper row, cut to the shorter length |
| Lookup.BlendBetween | pcb2gcode/utils.py:39-43 | with a weight in [0,1], every blended component lies between the neighbouring rows' components |
| Units.ConversionTo | src/pcb2gcode/units.py:76-80 | the conversion is positive and times the target's factor gives the source's factor |
| Units.Of | src/pcb2gcode/units.py:73-74 | `u(v)` reads back v raw and in its own unit, and is worth `v * factor` micrometres |
| Units.Call | src/pcb2gcode/units.py:19-23 | `q()` is the stored value; `q(u)` expressed in u's factor is worth as much as q |
| Units.Base | src/pcb2gcode/units.py:59-63 | the hash amount is zero or positive exactly when the value is |
| Units.Eq | src/pcb2gcode/units.py:50-57 | against a number, compares the raw value; against a quantity, compares the amounts across units; otherwise TypeError |
| Units.Add | src/pcb2gcode/units.py:40-45 | the sum is in the left unit; a quantity adds its amount, a number adds raw, anything else raises |
| Units.Mul | src/pcb2gcode/units.py:29-38 | a number scales the value in the same unit; a list gives one product per item; a quantity or anything else raises TypeError |
| Units.MulEach | src/pcb2gcode/units.py:32-33 | each list item is multiplied in turn; the result fails iff some item fails |
| Units.UnitTimes | src/pcb2gcode/units.py:82-88 | `x * u` is `u(x)`; a list of numbers gives one quantity per number; anything else raises TypeError |
| Units.CallOwnUnit | src/pcb2gcode/units.py:19-23 | expressing a quantity in its own unit gives back its value |
| Units.ConversionsAreInverse | src/pcb2gcode/units.py:76-80 | `a.conversion_to(b) * b.conversion_to(a) == 1` |
| Units.ConversionRoundTrip | src/pcb2gcode/units.py:19-23 | converting into another unit and back returns the original value |
| Units.EqSymmetric | src/pcb2gcode/units.py:50-57 | quantity equality is symmetric across units |
| Units.EqualQuantitiesHashEqually | src/pcb2gcode/units.py:59-63 | quantities that compare equal hash equally |
| Units.AddIsCommutativeOnAmounts | src/pcb2gcode/units.py:40-45 | `a + b` and `b + a` succeed and compare equal |
| Units.MulScalesAmount | src/pcb2gcode/units.py:29-31 | scaling by x scales the micrometre amount by x |
| Units.UnitTimesIsCall | src/pcb2gcode/units.py:82-84 | `4 * mm` is `mm(4)` |
| Units.UnitConstants | src/pcb2gcode/units.py:92-96 | the factors of um, mm, mil, thou and inch, and the conversions inch→mm = 25.4, inch→mil = 1000, mm→um = 1000 |
| Units.InchInMillimetres | src/pcb2gcode/units.py:115-116 | one inch equals and hashes like 25.4 mm, and 4 mm is 4000/25.4 mil |
| Config.Populate | pcb2gcode/config.py:81-105 | `default` wins, then `const`; an object schema without `properties` gives an empty map and one whose `properties` is not a mapping raises AttributeError; a typeless or other-typed mapping gives None; an array schema gives a list of 0 or 1 items depending on `items`; scalars raise TypeError |
| Config.PopulateMembers | pcb2gcode/config.py:91-93 | the property loop keeps the property names in order with each one's default, fails iff some property's default fails, and then with the error of the first such property |
| Config.PopulateWellFormed | pcb2gcode/config.py:81-105 | every well-formed schema yields a default |
| Config.ObjectDefaultFollowsProperties | pcb2gcode/config.py:88-95 | an object schema whose `properties` is a mapping yields a map with exactly its property names, in order, each holding that property's default |
| Config.ArrayDefaultHoldsItemDefault | pcb2gcode/config.py:96-103 | an array schema with `items` yields the one-element list of the items' default |
| Config.SplitUnit | pcb2gcode/config.py:65 | the unit is the longest word at the start of the string; no match iff the string does not start with a word character; the default is a word |
| Config.SplitUnitWithDefault | pcb2gcode/config.py:152-155 | `u(d)` splits into unit u and default d |
| Config.SplitUnitAlone | pcb2gcode/config.py:152-155 | a bare word u splits into u and the empty default |
| Config.SplitUnitDefaultFollows | pcb2gcode/config.py:65 | a default unit, when there is one, is the parenthesised word directly after the unit |
| Config.SplitUnitTakesDefault | pcb2gcode/config.py:65 | a parenthesised word directly after the unit is always taken as the default unit |

## Left out

- Travel optimisation (`optimize_travel`, `Machining.optimize`): it relies on numpy and an external TSP solver.
- G-code emission (`to_gcode_*`, the machine profiles): string formatting with timestamps.
- `Machining.process` and `use_rack`: they call a `request` that this `Rack` does not define, and use float square roots.
- Routes, `LinearMove`, `ArcMove` and `DrillHole`/`RouteHole` G-code: they add only text output. `RouteHole` and `DrillHole` are built with the plain operation constructor.
- `Rack.merge`, `Rack.diff` and `Rack.invalidate_slot`: they cannot run as written. `merge` calls a missing `self.key()` and reads `tool.imag`; `diff` indexes the 0-based list with a 1-based slot; `invalidate_slot` has no `self` and calls a missing `dict.set`.
- `Rack.sort`, working-slot invalidation and `RackManager`: `pcb2gcode/rack.py` has no sort, and the manager only reads configuration.
- Rack.Rack.AddBit: the bit is always a cutting tool. Adding `None`, or a value that is not a tool, is not modelled. The duplicate-bit and occupied-slot warnings are log output only.
- Rack.Rack.Clone: tools are values, so the deep copy is a copy of the slot list.
- Rack.Rack.Keys: returns a copy of the slot list, whereas `keys()` hands out the rack's own list, so changes a caller makes to that list (aliasing) are not modelled.
- Cutting-tool feeds and speeds (`interpolate`, `rpm`, `z_feedrate`, the tip angle and cut direction): they read manufacturer tables and float formatting. Only `interpolate_lookup` itself is modelled.
- CuttingTools.GetFromStock: oversizing is not modelled. `allow_bigger` is read from the class, where it is always False (pcb2gcode/cutting_tools.py:67,121), so the oversizing branch never runs.
- CuttingTools.Hash: the hash of a diameter is taken to be its nanometre count, not Python's hash of the quantity's float value.
- CuttingTools.Request: the log messages and the exit-depth computation are left out; they do not affect the result.
- Inventory.Inventory.GetFeatures: the result is a value. That the returned dictionary shares its feature lists with the inventory (aliasing) is not captured.
- Inventory.Inventory.AddHole: the hole's `tool_id` field and the `Route` feature are left out. The angle is in degrees, and cos, sin, sqrt and pi are uninterpreted.
- Machining.Move.Append and Machining.Operation.Then: the chain is given as a ghost sequence, so a cyclic chain (on which `last` would loop forever) cannot be passed in.
- Machining.Operation.EndCoordinate: the moves of each routed vector are given as ghost sequences. A coordinate is always truthy, so only None triggers the routed-vector fallback.
- Machining.MoveAttribute: the attributes inherited from `object` are those of Python 3.11; their values (methods, the class, the docstring) are not modelled, only that reading them succeeds.
- Lookup.InterpolateLookup: the table is a list of (diameter, row) entries with distinct diameters, standing for a dictionary. Its contract states only the error case; the results are stated by the lemmas that follow it.
- Units.UnitTimes: the requires limits list items to numbers. The source also builds quantities from non-number items without raising, which a real-valued quantity cannot hold.
- Units: complex scalars, `Unit.__call__` without a value (a quantity holding None), and the `__repr__` text are not modelled.
- Config.Populate: YAML and JSON-schema loading, the comment handling (`_add_comments`), file renaming and `convert_values_to_units` are left out. Those depend on file I/O and on unit classes that are not part of this model.
- Config.SplitUnit: `\w` is ASCII letters, digits and underscore; Unicode word characters are not modelled.
- Float rounding in units and interpolation, and `round_significant`.

## Findings

| source | as written | input that shows it | evidently intended | confidence | as-written member | corrected member |
|---|---|---|---|---|---|---|
| pcb2gcode/rack.py:50-51 | `key in self.rack` compares the tool with every slot up to a match, and the tool's `__eq__` reads `other.type`, which None lacks | bounded rack with slots `[empty, t]`: `t in rack` raises AttributeError | True whenever some slot holds an equal tool | not executed | Rack.ContainsAsWritten, Rack.EmptySlotBreaksMembership | Rack.Rack.Contains |
| pcb2gcode/rack.py:167-168 | `self.rack.remove(bit)` runs the same comparison | slots `[empty, t]`: `remove_bit(t)` raises AttributeError | slots become `[empty]` | not executed | Rack.RemoveAsWritten, Rack.EmptySlotBreaksMembership | Rack.Rack.RemoveBit |
| pcb2gcode/machining.py:77-78 | the loop steps with `move = self.next` instead of `move = move.next` | moves a→b→c, then `a.append(d)`: the cursor stays on b forever | d is linked after c | not executed | Machining.AppendAsWrittenNeverStops | Machining.Move.Append |
| pcb2gcode/machining.py:113-114 | the loop steps with `to_next = self.next_op` | operations a→b→c, then `a.then(d)`: the loop never ends | d is linked after c | not executed | Machining.ThenAsWrittenNeverStops | Machining.Operation.Then |
| pcb2gcode/machining.py:172 | the constructor reads `move.orgin`, an attribute no move has | any `RouteVector(move, tool)` raises AttributeError | the vector starts at `move.start` | not executed | Machining.RouteVectorAsWrittenFails | Machining.Operation.RouteVector |
