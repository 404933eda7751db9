# Handleliste generator and fittings registry, in Dafny

This project models two pieces of a small piping-system service:

- **The parts-list ("handleliste") generator.** `generate_handleliste` takes an ordered list of components and an ordered list of lines between component indices. It produces the ordered list of parts. It uses three tables: `CATALOG` gives each component kind its label; `FITTINGS` gives the fitting between an ordered pair of kinds; `TRANSITIONS` gives the kinds a line may lead to. It walks the lines once, keeping a set of seen indices and the last size recorded per index. For each line it emits the following, in order:
  1. the start label, the first time that index is seen;
  2. a "Parker Adapter" when the start index was recorded with another size;
  3. the table fitting;
  4. bulkhead and tee parts;
  5. the end label, the first time that index is seen.

  It rejects an out-of-range index or a disallowed transition. Finally it appends the labels of the components no line referenced.
- **The fittings registry.** This is an in-memory dictionary from a fitting's code to its record. It is seeded with one check valve. `get_fitting` looks a record up. `add_fitting` inserts or overwrites the record under its code.

Files:

- `wrappers.dfy`: `Option` and `Result`.
- `generator.dfy` (module `Generator`): the tables; a functional specification of the pass (`Step`, `Walk`, `Unreferenced`, `Run`, `Handleliste`); and the imperative pass. The imperative pass is `GenerateHandleliste`, with its line-loop body `AddLine` and its second loop `AppendUnreferenced`, and is proved equal to `Handleliste` on every input.
  - `Tag` gives the text of each component kind, and `Message` gives the text of the two errors the pass raises: an invalid index, and an invalid transition naming both kinds.
  - Items are modelled as `Entry` values that remember where each came from: a component's label, the size adapter, a table fitting, a bulkhead or a tee. `Names` turns them into the response strings.
  - The provenance is needed because the `FITTINGS` table also yields the text "Parker Adapter" (valve to pump, analyzer to flange). In the strings alone, the size adapter cannot be told apart from that fitting.
- `generator_properties.dfy` (module `GeneratorProperties`): what the pass promises, as lemmas over the specification.
- `fittings_store.dfy` (module `FittingsStore`): the registry.
  - It is a class `Registry` whose `fittings: map<string, Fitting>` field is updated in place.
  - A ghost history `added` records the registrations. The invariant `Valid()` ties the map to `Replay(added)`, which is the seed followed by the registrations in order.
  - Lemmas about `Replay` state what a lookup finds after any history.

## Model

| member | source | states |
|---|---|---|
| Generator.Catalog | app/services/generator.py:6-13 | Every kind has a label, and every label ends in " Item", so no label can be mistaken for a "Parker" part |
| Generator.Fittings | app/services/generator.py:15-23 | The table has a fitting only for an allowed transition, and every fitting is a non-empty "Parker" name. So the source's truth test on the looked-up fitting holds exactly when the table has an entry |
| Generator.Transitions | app/services/generator.py:25-32 | Every kind may lead to at least one kind, and never to itself |
| Generator.Step | app/services/generator.py:47-85 | A line is rejected exactly when an index is out of range or the transition is not allowed. An accepted line only appends items, at most six. It adds both ends to the seen set and records a size for both ends |
| Generator.Walk | app/services/generator.py:44-85 | The line pass in order, stopped by the first rejected line. After an accepted pass every seen index is in range, the indices with a recorded size are exactly the seen ones, and there are at most six items for each line |
| Generator.Unreferenced | app/services/generator.py:87-90 | The trailing labels: at most one per index below the bound, in strictly increasing index order. Each is the label of an unseen in-range component, of that component's kind |
| Generator.Run | app/services/generator.py:44-92 | The generator fails exactly when the line pass fails, with the same error. On success the line items come first, and there are at most six items per line plus one per component |
| Generator.Handleliste | app/services/generator.py:35-92 | The response fails exactly when the line pass fails, with the same error. Otherwise it has one string per item of the pass and its trailing labels |
| Generator.GenerateHandleliste | app/services/generator.py:35-92 | The imperative pass returns exactly the specified response, or the specified error, for every list of components and lines |
| Generator.AddLine | app/services/generator.py:47-85 | One line fails exactly when an index is out of range (index error, checked first) or the transition is not allowed (error naming both kinds). Otherwise it appends the line's block of strings, marks both ends seen and records the line's size for both ends |
| Generator.AppendUnreferenced | app/services/generator.py:88-90 | The second loop appends the labels of the components not seen, in index order, after the items already there |
| Generator.ErrorIsFinal | app/services/generator.py:47-64 | Once a prefix of the lines is rejected, the whole pass fails with that same error |
| GeneratorProperties.NoSelfLoops | app/services/generator.py:25-32 | No allowed transition leads from a kind to itself, so an accepted line has distinct ends |
| GeneratorProperties.SucceedsIffAllLinesOk | app/services/generator.py:47-64 | The generator succeeds if and only if every line has both indices in range and an allowed transition |
| GeneratorProperties.FailsAtFirstBadLine | app/services/generator.py:47-64 | A failure reports the first bad line: the index error if one of its indices is out of range, otherwise the transition error for its two kinds |
| GeneratorProperties.AcceptedLinesAreAllowed | app/services/generator.py:59-64 | On success every line has both indices in range and its end kind among the transitions of its start kind |
| GeneratorProperties.BlockOrder | app/services/generator.py:54-85 | A line's items come strictly in the order start label, size adapter, fitting, bulkhead, tee, end label, so each appears at most once |
| GeneratorProperties.BlockMembers | app/services/generator.py:54-85 | A line's block has its start label exactly when the start index is new, and its end label exactly when the end index is new, with no other label. It has the size adapter exactly when the start index was recorded with a different size. It has a fitting exactly when the table has one for the kind pair, and bulkhead and tee exactly when the line's flags are set |
| GeneratorProperties.EndSizeNotConsulted | app/services/generator.py:66-69 | The size recorded for the end index plays no part in a line's items |
| GeneratorProperties.BlockLabelIndices | app/services/generator.py:54-85 | The labels a line adds are those of its start index, if new, followed by its end index, if new and different |
| GeneratorProperties.PartNamesAreNotLabels | app/services/generator.py:6-23 | No fitting, adapter, bulkhead or tee text equals a catalog label |
| GeneratorProperties.BlockNamesClassified | app/services/generator.py:54-85 | An item of a line's block is a catalog label exactly when it is a component's label, and each label is that of its own component's kind |
| GeneratorProperties.WalkSeen | app/services/generator.py:44-85 | After the line pass the seen set is exactly the set of indices the lines reference, all in range |
| GeneratorProperties.WalkLabelsOnce | app/services/generator.py:54-85 | The line pass emits the label of each seen index exactly once and of no other index |
| GeneratorProperties.StepLabelsOnce | app/services/generator.py:54-85 | An accepted line keeps the fact that each seen index has exactly one label and no other index has one |
| GeneratorProperties.WalkEntriesClassified | app/services/generator.py:54-85 | Every item of the line pass is a catalog label exactly when it is a component label, of the component's own kind |
| GeneratorProperties.WalkKeepsInvariant | app/services/generator.py:44-85 | The three facts above hold together after every accepted sequence of lines |
| GeneratorProperties.UnreferencedLabels | app/services/generator.py:88-90 | The trailing items are labels, of their own kinds, of in-range indices not seen |
| GeneratorProperties.UnreferencedIncreasing | app/services/generator.py:88-90 | The trailing labels come in strictly increasing index order |
| GeneratorProperties.UnreferencedIndices | app/services/generator.py:88-90 | The indices of the trailing labels are the unseen indices below the component count, in order |
| GeneratorProperties.UnreferencedMultiset | app/services/generator.py:88-90 | Each unseen index below the component count gets exactly one trailing label, and no other index gets one |
| GeneratorProperties.UnreferencedComplete | app/services/generator.py:88-90 | Every unseen component gets its label among the trailing items |
| GeneratorProperties.EachComponentLabelledOnce | app/services/generator.py:44-90 | On success each component index contributes its label exactly once, of its own kind, and no other index contributes one |
| GeneratorProperties.CatalogLabelsMatchComponents | app/services/generator.py:55-90 | On success the number of catalog labels in the response equals the number of components |
| GeneratorProperties.RunSplits | app/services/generator.py:87-92 | On success the output is the line pass's items followed by the labels of the indices no line references |
| GeneratorProperties.UnreferencedComeLast | app/services/generator.py:87-90 | On success the line items form a prefix of the output. After them come only labels of unreferenced in-range components, in increasing index order, and every unreferenced component is among them |
| GeneratorProperties.UnreferencedNoneLeft | app/services/generator.py:88-90 | When every index below the bound is seen, no trailing label is appended |
| GeneratorProperties.NoLinesGivesLabelsInOrder | app/services/generator.py:87-90 | With no lines the generator succeeds, and the response is the catalog labels of the components, in their order |
| GeneratorProperties.AppendOnly | app/services/generator.py:38-85 | Items are only appended: the items after any prefix of the lines are a prefix of the final items |
| GeneratorProperties.SizesAfterLine | app/services/generator.py:80-81 | After an accepted line, the size recorded for both its start and its end index is the line's size |
| GeneratorProperties.FourComponentsNoLines | tests/test_endpoints.py:9-15 | Pipe, valve, pump and flange with no lines give their four labels in order |
| GeneratorProperties.ChainOfOneSize | app/services/generator.py:15-18 | A pipe-valve-pump-flange chain of one size gives the labels with the coupling, adapter and connector fittings between them |
| GeneratorProperties.PumpToPipeRejected | app/services/generator.py:59-64 | A line from a pump to a pipe is rejected with the message "Invalid transition from pump to pipe" |
| GeneratorProperties.PumpThenPipeWithoutLines | tests/test_endpoints.py:24-27 | Without lines no transition is checked: a pump followed by a pipe gives both labels |
| FittingsStore.Seeded | app/services/fittings_store.py:9-18 | The seeded dictionary keeps its one record under that record's own code, so the registry starts keyed by code |
| FittingsStore.ReplayKeyedByCode | app/services/fittings_store.py:9-28 | After any history of registrations, every key is the code of the record stored under it |
| FittingsStore.ReplayHasCode | app/services/fittings_store.py:21-28 | A code is found if and only if it is the seed's or some record was registered under it, so a code never seeded or added finds nothing |
| FittingsStore.ReplayLatestWins | app/services/fittings_store.py:26-28 | The last record registered under a code is the one found under it: add overwrites |
| FittingsStore.ReplaySeedKept | app/services/fittings_store.py:9-23 | The seed record is found under its code as long as nothing was registered under that code |
| FittingsStore.Replay | app/services/fittings_store.py:9-28 | The dictionary after a history of additions on the seed: the seed code and every added code stay present, because nothing removes an entry |
| FittingsStore.Registry.Valid | app/services/fittings_store.py:9-28 | The registry's invariant: its dictionary is the seed with the additions replayed in order. It implies that every key is the code of its record |
| FittingsStore.Registry.constructor | app/services/fittings_store.py:9-18 | The registry starts with only the seeded check valve and an empty history |
| FittingsStore.Registry.Get | app/services/fittings_store.py:21-23 | The lookup finds a record exactly when the code is stored, and the record found carries that code; as a function it changes nothing |
| FittingsStore.Registry.Add | app/services/fittings_store.py:26-28 | Adding stores the record under its code, replacing any earlier one, and keeps the invariant. The lookup then finds it, and the lookup of every other code is unchanged |
| FittingsStore.SeedIsFound | tests/test_fittings.py:8-11 | In the initial registry the seed code finds a record described as "Check valve", and no other code finds anything |
| FittingsStore.AddedIsFound | tests/test_fittings.py:14-25 | After a record is added, its code finds exactly that record |

## Left out

- The unknown-component check (app/services/generator.py:40-42) cannot fail: the catalog is a total function over the six kinds. The imperative pass therefore has no code for it.
- Indices are `nat`. Python's negative indices, which count from the end of the component list, are not modelled.
- Sizes are opaque strings compared for equality, as in the source.
- The component kinds and the line fields follow the generator, not the request schema. app/schemas/pid.py declares four kinds and no `lines` field; the generator uses six kinds and reads `start`, `end`, `size`, `tee` and `bulkhead` from each line.
- Two tests disagree with the code, and the code is followed:
  - tests/test_generator.py:10 expects the raw tags rather than the catalog labels; `FourComponentsNoLines` states the labels.
  - tests/test_endpoints.py:24-27 expects a transition error for a pump followed by a pipe without lines; `PumpThenPipeWithoutLines` states that the code accepts it.
- Other versions of the service look fittings up permissively and never check transitions. This model follows the generator as written here, which rejects a disallowed transition.
- The catalog label of the start index is appended before the transition check. The model does not show that intermediate list, because a rejected line raises and no list is returned.
- The HTTP routes, the request validation, the 404 mapping of the fittings route, the GUI editor, the PDF reader and the timer-based chat utilities are not part of this model.
- Records are values here. In the source a `Fitting` is a mutable object. `add_fitting` stores the caller's object and `get_fitting` returns the stored object itself, so a caller that later changes a record's `code` changes the stored entry, and the entry stops being keyed by its code. That aliasing is not modelled. The invariant that every key is its record's code assumes nobody changes a record after adding it.
- The fittings registry is a single module-level dictionary in the source. Here it is an object, and its `added` history is ghost bookkeeping only.
