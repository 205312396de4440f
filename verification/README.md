# Verification of the incremental view engine

The engine holds the results of queries and keeps them current. A query becomes a tree of operators over
source connections; every row change is pushed through the tree, and what comes out are changes that a
client folds into the result it holds. The claim that the engine lives by is that the folded result is
always what a fresh fetch would return. This project states that claim for the engine's own operators,
wiring and edge cases, and proves it for every query, every set of tables and every finite run of changes.

## How the parts fit

- **Views** (`Views.dfy`). A view is a list of nodes in sort order. `Apply` is the client's fold of a
  change, `Legal` says that a change fits the view at the moment it arrives, and `Carries(s, changes, t)`
  says that every change of the list is legal when it arrives and that folding the list into `s` gives `t`.
  `Traced` adds what a fetch of the operator shows at every single emission.
- **Operators as classes.** `MemorySource`, `TakeOperator`, `JoinOperator`, `ExistsOperator` and `FanIn` keep
  the fields of the Go structs `MemorySource`, `Take`, `Join`, `Exists` and `FanIn`, update them in place and loop
  as their methods do. Their contracts tie each push to the changes that the specification gives, and each fetch,
  also one in the middle of a push, to the fold so far. The panics of those methods are branches of these bodies:
  where they are unreachable the body says `assert false`, where they are reachable the result says so (`None`,
  `Panic`, `Drift`).
- **Specifications of the operators.** `WindowStep`/`TakeStep`, `ParentStep`/`ChildStep`, `PushChain`,
  `Written` with `Deliveries`: what each operator must emit, each proved to carry its old view to its new one.
- **Pipelines** (`Pipeline.dfy`, `Panics.dfy`). Any tree of source connections, Skip, WHERE chains, Take and
  Join. `PipeCarries` is the claim for one change of one connection, by induction over the tree;
  `PipeIsCalm` says that no operator of the tree panics. Every connection is told by itself, so a table that
  feeds both sides of a join is covered.
- **Runs** (`Database.dfy`). Tables, connections with filters and orderings, split edits, and finite runs
  of source changes.
- **Builder** (`Naming.dfy`, `Builder.dfy`, `BuilderWiring.dfy`, `Meaning.dfy`, `Truth.dfy`). The tree that
  the builder makes of a query, that it is always wired soundly, that it shows what the query means, and that
  the rows it is about are those that plain logic picks. `Meaning.EndToEnd` puts everything together.
- **What it all means row by row** (`RowOrder.dfy`, `Operators.dfy`, `TableMeaning.dfy`, `Results.dfy`,
  `ScalarResults.dfy`, `BuilderMeaning.dfy`). The definitions that both sides of a theorem share, comparators,
  operators, cursors, limits, joins and the builder's lists, are pinned to statements that do not use them: which
  value comes first, which rows a comparison holds of, which rows a result has and in which order, and which children
  each of them has in each relationship.
- **Between the parts** (`Hydration.dfy`, `Network.dfy`, `JoinNetwork.dfy`). Pipelines count every partition as
  hydrated that a parent can ask for; `NetRunCarries` says that a join over a Take shows and emits the same when it
  starts with the partitions of its parents and hydrates those of every parent that it sends. `PushThrough` runs a
  source and a Take as objects; `PushParents` and `PushChildren` run two sources, a join and a limit, and what
  comes out is what the pipeline of that shape emits.
- **Beside the main line.** The flipped join (fetch and push), the scalar rewriting, parallel push, the Skip
  fetch, the undo overlay on unordered lists, the deduplicating merge, the LIKE matcher.

## Where the code does not keep what it seems to promise

Each of these is a lemma, with the condition under which the promise holds.

- A join constraint built from a key with a repeated target column drops one column. It means the join on all
  rows if and only if no target column stands for two source columns (`ConstraintIsJoinMatchIff`).
- A Take fetch in reverse shows the window only if the partition has no row beyond it; otherwise it stops at
  the first row and shows nothing (`ReverseFetchIff`). A reverse fetch over partitions shows the union of the
  windows only if its first row is not behind every bound, or none of the union is asked for (`ReverseUnionIff`).
- The fan-in of an OR panics on exactly those child changes that open one branch and close another while no
  branch holds throughout (`ChainPushIs`, for every condition). Two EXISTS branches do so exactly if they share
  the changed relationship, with opposite polarities, and it becomes non-empty or empty
  (`SharedNamePanicsIff`). The builder's renaming excludes this (`UniquifyIsDistinct`).
- The builder renames EXISTS subqueries only below an AND or OR. A single EXISTS keeps its name and may share
  it with a related subquery; one below an AND or OR, `x`, becomes `x_0`, and may share that with a related
  subquery called `x_0`. In both cases the outer join hides the inner relationship. What it forwards fits the
  client's view unless it is a child change of the hidden relationship that changes something
  (`SharedRelationshipIff`). `SharedNameBreaks` is a family of queries, tables and changes where that happens:
  the query can be built, everything else about it is in order, and no client can apply what it is sent. Those
  queries are `Sensible` exactly if the names differ after the renaming (`SensibleIff`), and so is any query whose
  keys mean the join, at every depth (`SensibleMeans`).
- A parallel push is the sequential one for every pipeline that reads the pushed table through one connection,
  whatever other tables it reads (`ParallelIsSequential`). A join whose two sides read the table through two
  connections keeps its view exactly if one of the connections hands on nothing, or the two changed rows do not
  join with each other, or the child is edited to itself (`SelfJoinParallelIff`, for adds, removes and edits);
  otherwise the client is sent what it cannot apply, as with a row that joins with itself
  (`SelfJoinCountsTwice`). With pipelines between the connections and the join, limits included, it does so exactly
  if every parent that changes has the same children before and after (`PipeParallelIff`).
- The flipped join sends nothing for an edit that moves a parent to a key without children. That is right exactly
  if the old parent had no children either; otherwise the client keeps it (`FlippedPush.PushParent`).
- While a Take sends the removal of a displaced row, it hides the row that comes in, but only from fetches of one
  partition: a fetch over partitions shows it already (`FetchOverPartitions`).
- An edit is split if a column that some connection asks to have split has changed, but also if it is null before and
  after (`SplitIff`): the comparison counts null as unequal to itself.
- The scalar rewriting is wrong for NOT EXISTS without a matching value, on every row, and for EXISTS whose
  own limit is zero while a row with a value qualifies (`LiterallyIff`).
- The bound that a Take stores may be an older version of the window's last row: an edit that leaves the sort
  position alone forwards the change and keeps the stored bound. The Take only relies on where the bound sorts
  (`StateOk`), and that is enough.

## What is taken as given

Primary keys are unique. Each column holds values of one type; where values of different types meet, the
Go comparator panics and the model's total comparator continues with the order of the types (`Values.Order`), and
`Values.Compare` says exactly when the panic happens. Numbers are reals. A remove or an edit names the row that is
stored under its key, and an edit keeps the key (`Truthful`; the source's drift errors for everything else are
modelled). Cursor rows give every sort column. Pushes come one after the other. The lazily read relationships of a node are read at once, when the node is sent.

## Model

| member | source | states |
|---|---|---|
| Values.ComparatorIsTotalOrder | ivm/data.go:226-243 | every comparator built from an ordering is a total preorder on rows, ascending and descending columns mixed |
| Values.CompareByLaws | ivm/data.go:226-243 | comparing is antisymmetric, and zero exactly when the rows agree on every sort column |
| Values.CompareValuesMeaning | ivm/data.go:142-224 | the value comparison panics exactly on two non-null values of different types; join equality differs from it only on null |
| Values.Compare | ivm/data.go:226-243 | the comparator's loop computes the ordering, reversed on request, and does not panic when each column's values are comparable |
| RowOrder.OrderMeans | ivm/data.go:142-201 | numbers compare by size, texts by the first differing character or as proper prefix, false before true, null before everything |
| RowOrder.CompareByMeans | ivm/data.go:226-243 | a row sorts before another exactly if in the first sort column in which they differ its value comes first, or last where the column is descending |
| JoinUtils.ConstraintIsJoinMatch | ivm/join_utils.go:18-39 | a row meets the constraint built from the other side exactly when the two rows join; null joins nothing |
| JoinUtils.ConstraintIsJoinMatchIff | ivm/join_utils.go:29-39 | the constraint means the join on all rows if and only if no target column stands for two source columns |
| JoinUtils.BuildJoinConstraint | ivm/join_utils.go:29-39 | the loop gives no constraint when a source column is null, and otherwise the last value given to each target column |
| JoinUtils.LaterWins | ivm/join_utils.go:29-39 | of source columns aimed at one target column the last one counts |
| JoinUtils.UndoApply | ivm/join_utils.go:42-123 | the undo overlay is the exact inverse of every legal change, child changes at every depth included |
| JoinUtils.GenerateWithOverlay | ivm/join_utils.go:42-123 | the flag-driven loop panics exactly when the changed node is not there, and on every list that the change can have produced it returns the list before the change |
| UnorderedOverlay.UnorderedUndoes | ivm/join_utils.go:126-172 | in whatever order the nodes come, the unordered overlay can be applied and gives the nodes of the list before the change, for child changes too |
| UnorderedOverlay.GenerateWithOverlayUnordered | ivm/join_utils.go:126-172 | the loop panics exactly when it does not find what it looks for, and on the nodes of every list that the change can have produced it returns the nodes of the list before the change |
| Ast.LikeMatcher | builder/filter.go:240-268 | the looping and recursing matcher decides LIKE as the recursive definition does |
| Ast.LikeAnyStretch | builder/filter.go:244-252 | a percent sign matches any stretch of the text |
| Operators.LikeMeans | builder/filter.go:240-268 | a text is LIKE a pattern exactly if it can be cut into pieces, any piece for a percent sign, one character for an underscore, the character itself for every other |
| Operators.PlainPattern | builder/filter.go:240-268 | a pattern without wildcards is matched by itself alone |
| Operators.OnKnown | builder/filter.go:110-129 | on known values the six comparisons are those of the values |
| Operators.OnNumbers | builder/filter.go:110-129 | on numbers they are the comparisons of numbers |
| Operators.OnTexts | builder/filter.go:110-133 | on texts they are the dictionary order, and NOT LIKE is the complement of LIKE |
| Operators.OnBooleans | builder/filter.go:110-129 | on booleans false is less than true |
| Operators.OnNull | builder/filter.go:105-118 | IS compares with null like any other value; every other operator is false with a null on either side |
| Operators.OnLists | builder/filter.go:146-149 | IN holds exactly when some listed value equals the left one, NOT IN when none does, neither on null |
| FilterChain.GateCarries | ivm/filter.go:56-83 | showing only nodes that pass a test turns each change into at most one, and that one carries the filtered view; an edit is split when only one side passes |
| FilterChain.StripIsNecessary | builder/builder.go:311-347 | the part of a condition that is given to the source drops only rows that the whole condition drops |
| FilterChain.StripKeeps | builder/builder.go:311-347 | what the source is given holds exactly where every conjunct without a subquery does |
| FilterChain.WhereCompiles | builder/builder.go:182-196 | the source filter followed by the operator chain accepts a node if and only if the condition is true of it |
| FilterChain.ChainFilterIsSat | ivm/fan_out.go:58-65 | filtering through chained and fanned-out operators is the truth of the condition, whatever follows behind |
| ChainPush.PushAccumulatedChanges | ivm/push_accumulated.go:13-111 | the collapse of gathered pushes, with its panics, as the table of kinds prescribes |
| ChainPush.FanIn.FanOutDonePushingToAllBranches | ivm/fan_in.go:59-77 | the fan-in hands on the collapse of what was gathered and forgets it |
| ChainPush.ExistsPushIsGate | ivm/exists.go:136-200 | from the relationship's size after the change alone, EXISTS and NOT EXISTS emit what a gate on both the old and the new node would |
| ExistsCache.ExistsOperator.FilterFetched | ivm/exists.go:92-119 | a fetch with the cache lets through exactly the nodes it would without it, when nodes with one join key agree on the relationship, and it leaves no entry behind |
| ExistsCache.ExistsOperator.Push | ivm/exists.go:136-150 | a push answers as a gate on the node before and after would, and panics exactly without the relationship |
| ExistsCache.JoinDecides | ivm/exists.go:92-119 | behind a join on the same key such nodes do agree |
| ExistsCache.LaterJoinKeeps | ivm/exists.go:92-119 | and they still do behind further joins under other names |
| ChainPush.CollapseIsGate | ivm/push_accumulated.go:13-111 | collapsing the pushes of several branches is one gate that passes what some branch passes |
| ChainPush.ChainPushIsGate | ivm/fan_out.go:68-78 | the whole compiled chain emits what a single filter with the whole condition would, and never panics, for adds, removes, edits and child changes |
| ChainPush.ChainPushIs | ivm/fan_in.go:59-77 | for every condition, without any demand on names: the chain panics exactly on the child changes that open one branch of an OR and close another while none holds throughout, and is one filter otherwise |
| ChainPush.ChainCarries | ivm/fan_in.go:53-77 | what the chain emits carries the nodes that satisfied the condition to those that satisfy it now |
| ChainPush.SharedNamePanics | ivm/push_accumulated.go:73-111 | EXISTS and NOT EXISTS of one relationship in one OR panic on every node that gets its first child |
| ChainPush.SharedNamePanicsIff | ivm/push_accumulated.go:73-111 | two EXISTS branches of an OR panic exactly on a change that makes a relationship they share with opposite polarities empty or non-empty |
| TakeSpec.WindowStepCarries | ivm/take.go:152-302 | the changes that a limit makes of one change carry the first rows before it to the first rows after it |
| TakeUnion.TakeCarries | ivm/take.go:152-451 | over all hydrated partitions: what the Take emits carries the ordered union of their windows |
| TakeRules.ReverseFetchIff | ivm/take.go:82-105 | a reverse fetch of a partition shows the reversed window exactly when there is no row beyond it |
| Take.TakeOperator.Push | ivm/take.go:152-451 | every push keeps size and bound of every hydrated partition; the emissions are those of the window, and at each of them a fetch shows the old window with the changes so far folded in |
| Take.TakeOperator.PushAdd | ivm/take.go:167-222 | adding to a window that is full or not, with the displaced row and the hidden row |
| Take.TakeOperator.PushRemove | ivm/take.go:223-292 | removing from a window, refilled from behind the bound or shrinking; the bound node is always found |
| Take.TakeOperator.PushEditOfBound | ivm/take.go:331-381 | an edit of the row at the bound: forwarded, moved inside, or replaced by the row that comes in; no panic is reached |
| Take.TakeOperator.PushEditBehindBound | ivm/take.go:384-421 | an edit of a row from behind the bound: ignored, or it displaces the last row; no panic is reached |
| Take.TakeOperator.PushEditInFrontOfBound | ivm/take.go:423-451 | an edit of a row from inside the window: forwarded, or the row leaves and the next one comes; no panic is reached |
| Take.TakeOperator.Fetch | ivm/take.go:82-125 | which of the three ways a fetch answers, and what it stores |
| Take.TakeOperator.Hydrate | ivm/take.go:128-149 | the first fetch of a partition shows its window, stores its state and leaves the others theirs |
| Take.TakeOperator.FetchShowsPartition | ivm/take.go:82-105 | between pushes a fetch of a hydrated partition shows its first rows |
| Take.TakeOperator.FetchShowsUnion | ivm/take.go:107-125 | between pushes a forward fetch over partitions answers as an input would that holds the ordered union of the hydrated windows |
| Take.TakeOperator.ReverseUnionIff | ivm/take.go:107-125 | a reverse fetch over partitions shows the reversed union exactly when its first row is not behind the greatest bound, or none of the union is asked for |
| Take.TakeOperator.FetchOverPartitions | ivm/take.go:107-125 | at every moment, also while a row is hidden, a fetch over partitions shows of each partition what a fetch of that partition would without hiding |
| Take.TakeOperator.SetTakeState | ivm/take.go:461-485 | the greatest bound stays at or behind every stored bound |
| JoinSpec.ParentStepCarries | ivm/join.go:135-169 | a change of the parents, passed on with the children attached, carries the join |
| JoinSpec.ChildStepCarries | ivm/join.go:188-213 | a change of the children, sent once for each of its parents, carries the join |
| JoinSpec.ProgressStep | ivm/join.go:200-213 | telling one parent carries what is shown one parent further and changes nothing else |
| JoinSpec.SharedRelationshipIff | ivm/join.go:135-169 | for every kind of parent change: what a join with a shared relationship name forwards fits the client and carries its view, unless it is a child change of the hidden relationship; of those, only edits of a shown child to itself do |
| JoinSpec.SharedRelationshipIsIllegal | ivm/join.go:51-66 | in particular an added child of the hidden relationship is forwarded as a change that no client can apply |
| SharedNames.SensibleMeans | builder/builder.go:371-404 | any query whose keys mean the join is sensible exactly if at every depth no related subquery has the name that an EXISTS beside it has after the renaming |
| SharedNames.SensibleIff | builder/builder.go:371-404 | for one EXISTS, by itself or below an AND, and one related subquery, that is: the renamed name differs from the other |
| SharedNames.SharedNameBreaks | builder/builder.go:371-404 | where they are equal the query is built, and a second child of a shown row makes it send a change that no client can apply |
| SharedNames.FamilyExists | builder/builder.go:371-404 | there are tables and changes of that kind |
| Join.JoinOperator.Fetch | ivm/join.go:125-132 | a fetch answers as a list would in which parents behind the push position have their old children, at any moment |
| Join.JoinOperator.ProcessParentNode | ivm/join.go:215-247 | the children of a parent: the new ones up to the push position, and behind it the old ones recovered by the overlay, which never panics |
| Join.JoinOperator.PushParent | ivm/join.go:135-169 | one change, traced; the panic happens exactly on an edit of the parent key |
| Join.JoinOperator.PushChild | ivm/join.go:172-213 | one change for each matching parent, each emitted while a fetch shows the view one parent further; the panic happens exactly on an edit of the child key |
| FlippedJoin.Fetch | ivm/flipped_join.go:103-250 | the merge from the child side equals the join's fetch without the parents that have no children, for every constraint, start and direction |
| FlippedJoin.Merging | ivm/flipped_join.go:163-247 | the k-way merge shows every parent that some child belongs to once, in order, with exactly its children |
| FlippedJoin.MergedMeans | ivm/flipped_join.go:144-158 | the merged constraint selects the parents that meet the request and join with the child |
| FlippedPush.PushChild | ivm/flipped_join.go:262-345 | a first child makes its parents appear, a last child makes them disappear, other changes are sent as child changes: together they carry the inner join |
| FlippedPush.PushParent | ivm/flipped_join.go:355-395 | when it panics, and that what it sends carries the inner join exactly if the key stays or the old parent had no children |
| SourceRules.SplicedShows | ivm/source.go:524-573 | dropping pending rows by start, constraint and filter before the splice changes nothing that is shown |
| SourceRules.OverlayIsWrite | ivm/source.go:475-510 | a fetch with the pending change spliced in equals the fetch after the change is written |
| SourceRules.ConnCarries | ivm/source.go:436-453 | what a connection hands on carries its sorted, filtered view of the table |
| SourceRules.SplitFits | ivm/source.go:204-209 | the remove and add halves of a split edit fit and write the same table |
| TableMeaning.SplitIff | ivm/source.go:185-203 | an edit is split exactly if a split column has another value than before, or none |
| TableMeaning.FittingIff | ivm/source.go:221-262 | an add drifts exactly when a stored row has its key, a remove or edit exactly when none has |
| TableMeaning.WrittenRows | ivm/source.go:298-332 | the written table has the added row, not the removed one, and every other as it was |
| TableMeaning.TableMeans | ivm/source.go:102-130 | a table is in ascending order of the primary key, and so is a connection that asks for no ordering |
| Database.SeenIsWorld | ivm/source.go:265-278 | what the source's connections see during a push is what the pipelines are told over |
| Source.MemorySource.Fetch | ivm/source.go:475-510 | for every constraint, full start, basis, direction and filter: a connection that was told of the pending change sees the written table, the others the stored one |
| TableMeaning.FetchMeans | ivm/source.go:475-510 | a fetch shows the rows that pass the filter, have the asked values and are at the start or beyond it, in the connection's order or in reverse |
| Source.SpliceLoop | ivm/source.go:576-603 | the loop puts the pending row in front of the first greater row and leaves out the replaced one |
| Source.ApplyStart | ivm/source.go:610-655 | cutting at the start keeps exactly the rows from it on, in the direction of the scan |
| Source.ReverseNodes | ivm/source.go:680-684 | the in-place reversal |
| Source.MemorySource.Search | ivm/source.go:335-339 | binary search finds the first row that does not sort before the key |
| Source.MemorySource.WriteChange | ivm/source.go:298-332 | add, remove and edit write the table they should; the panic for a missing row is not reached |
| Source.MemorySource.GenPush | ivm/source.go:221-279 | drift is reported exactly when the change does not fit; each delivery is made while the connections told so far, and only they, see the change |
| Source.MemorySource.GenPushAndWriteWithSplitEdit | ivm/parallel.go:114-148 | in turn or all at once, split or not: drift is found for the same changes, and data, connections, epoch and overlay end in the same state |
| Source.MemorySource.Push | ivm/source.go:177-218 | in either mode the same changes go to the same connections in the same order and the source ends in the same state; an edit of a split column goes out as a remove and an add |
| SourceRules.SamePushed | ivm/parallel.go:46-96 | the sequential and the parallel deliveries differ in nothing but what can be seen at them |
| Source.MemorySource.SetParallel | ivm/parallel.go:100-106 | sets the mode, with 2 connections as the least unless a positive number is given |
| Source.MemorySource.SetOutput | ivm/source.go:460-462 | the connection has an output from now on, which is what pushes go by; the others stay as they are |
| Source.MemorySource.Disconnect | ivm/source.go:164-174 | the other connections stay as they are and in order |
| Network.PushThrough | ivm/source.go:213-218 | a source and a Take behind it, run on one change, split or not: the Take stays right and what it sends carries its windows to those of the written table |
| JoinNetwork.PushParents | ivm/source.go:213-218 | two sources, a join and a limit as objects, on a change of the parents' table: what comes out is what the pipeline emits, and carries what the limit shows |
| JoinNetwork.PushChildren | ivm/join.go:188-213 | the same for a change of the children's table |
| Skip.Fetch | ivm/skip.go:93-119 | fetching through the cursor shows, of the rows asked for, those behind the bound, none in front of it, and those at it exactly if it is not exclusive; for every request, with the empty answer and the early stop in reverse |
| Skip.ForwardStart | ivm/skip.go:139-179 | the effective start stands for the bound and the requested start together |
| UnionFanIn.MergeFetches | ivm/union_fan_in.go:181-218 | the merge is in order, without repeats, and has a node exactly where some branch has one |
| UnionFanIn.MergeIsUnion | ivm/union_fan_in.go:181-218 | when the branches agree on nodes, the merge is their union |
| Source.MemorySource.GenPushParallel | ivm/parallel.go:15-96 | every connection is told before any works, so each delivery is made while all of them see the change; drift is reported exactly when the change does not fit, and nothing has changed then |
| Parallel.ParallelIsSequential | ivm/parallel.go:46-96 | every interleaving of the goroutines returns what the sequential push returns, when each pipeline that is told reads the pushed table through one connection, whatever other tables it reads |
| Parallel.ParallelCarries | ivm/parallel.go:46-96 | a parallel push carries the view of such a pipeline from the old table to the new one |
| Parallel.SelfJoinCountsTwice | ivm/parallel.go:46-72 | a self-join that is told at both connections at once sends a row that joins with itself twice |
| Simultaneous.AtOnceIff | ivm/join.go:135-213 | a join whose parents are told while its children are already shown changed carries its view exactly if the two changes do not join, or the child change changes nothing |
| Parallel.SelfJoinIff | ivm/parallel.go:46-72 | under exactly that condition a parallel push sends what a sequential one sends, and carries the view |
| Parallel.SelfJoinParallelIff | ivm/parallel.go:46-96 | for every table, filters, orderings and change: a parallel push keeps the view of a self-join exactly if what the two connections hand on does not join |
| SidesAtOnce.NotTwiceAll | ivm/join.go:188-213 | changes that lead from one list to a different one cannot be folded in a second time |
| SidesAtOnce.SidesAtOnceIff | ivm/join.go:135-213 | with whole pipelines on both sides of a join, telling the parents while the children are already seen changed sends the same, and carries the view, exactly if every changed parent has the same children before and after |
| SidesAtOnce.BuildIsLimitedOnce | builder/builder.go:94-235 | every built pipeline has at most one limit on the way from its own connection, so that an added row comes last in what it emits |
| Parallel.PipeParallelIff | ivm/parallel.go:46-96 | for every table and change: a parallel push keeps the view of a join of two pipelines over two connections to the table exactly under that condition |
| Pipeline.OpCarries | ivm/filter_operators.go:69-91 | one change through Skip, WHERE or Take carries what the operator shows, and what comes out keeps split columns and relationships |
| Pipeline.ChildStepsCarry | ivm/join.go:188-213 | a list of child changes through a join, with the children's view moving on between them |
| Pipeline.PipeCarries | ivm/source.go:253-278 | for any soundly wired tree and any change of any one of its connections, what comes out carries what the tree showed |
| Hydration.JoinShowsHydrated | ivm/take.go:82-105 | a join over a Take shows the same whichever partitions are hydrated, as long as its parents' are |
| Hydration.HydratedPipeCarries | ivm/take.go:152-165 | and it emits the same, so that with any such set of hydrated partitions what it emits carries what it shows |
| Hydration.NetCarries | ivm/join.go:135-169 | one change of either side, with the partitions that are fetched for the parents that are sent: the join shows and emits what the pipeline does |
| Hydration.NetRunCarries | ivm/take.go:128-149 | over every run, with a hydrated set that grows by the parents that are sent, the join carries its view |
| Panics.PipeIsCalm | ivm/take.go:305-309 | no operator of a soundly wired tree is handed an edit that moves a parent, a child or a row of a partition elsewhere, and no fan-in or EXISTS in it panics |
| Panics.PushIsCalm | ivm/source.go:185-210 | whatever change a source is given, what it pushes reaches no panic in any soundly wired tree |
| Database.PushCarries | ivm/source.go:221-279 | telling the connections of a table one after the other carries the view from the old table to the new one, also when several of them feed one tree |
| Database.SourcePushCarries | ivm/source.go:185-218 | one source change, split or not, carries the view |
| Database.RunCarries | ivm/source.go:213-218 | after every finite run of fitting changes the folded view is what a fresh fetch shows |
| Naming.NumberedApart | builder/builder.go:388-391 | names with different numbers differ, whatever the aliases |
| Naming.DecimalMeans | builder/builder.go:388-391 | the number in a name is written in decimal digits, without leading zeros |
| Naming.UniquifyIsDistinct | builder/builder.go:371-404 | after the renaming no two subqueries of a condition share a relationship |
| BuilderMeaning.UniquifyNumbers | builder/builder.go:371-404 | the subqueries are numbered from left to right, and nothing else about them changes |
| Builder.OrderIsComplete | builder/builder.go:593-617 | the completed ordering names every key column and only breaks ties of the given one |
| Builder.CompleteTwice | builder/builder.go:538-560 | completing an ordering that is already completed changes nothing |
| Builder.AddPrimaryKeys | builder/builder.go:593-617 | the loops append the missing key columns, in order |
| Builder.GatherFacts | builder/builder.go:278-293 | gathering finds every relationship that the WHERE operators will ask for, and something exactly when there is a subquery |
| BuilderMeaning.SplitKeysAre | builder/builder.go:255-275 | the split columns are those of the partition key and of the parent keys of related and EXISTS subqueries, and no others |
| BuilderMeaning.BuildableMeans | builder/builder.go:60-250 | a query can be built exactly if its table exists and every EXISTS and the last related subquery of each name can, with keys of one length |
| BuilderMeaning.DedupeInPlace | builder/builder.go:209-228 | the related joins are built in the order in which their names are first met |
| BuilderWiring.BuildIsWired | builder/builder.go:60-250 | the built tree is wired soundly: distinct relationships, connections used once, every join and partition key among the split columns of its connection |
| Meaning.FilterPushdown | builder/builder.go:182-196 | filter at the source and operators behind the joins, or the filter alone, keep the nodes of which the condition is true |
| Meaning.BuildShows | builder/builder.go:60-250 | the built tree shows exactly what the query means on the tables |
| Meaning.EndToEnd | builder/builder.go:52-57 | for every query and every finite run: the first result with everything emitted folded in is the last result |
| Truth.RowsBeforeLimit | builder/builder.go:131-196 | the rows that joins, EXISTS operators and cursor let through are those of which the condition is true in plain logic |
| Truth.ChildrenExist | builder/builder.go:139-176 | with the limit of an existence check, a parent has children exactly when some row matches |
| Truth.ResultRows | builder/builder.go:60-250 | a query without a limit returns exactly the rows that qualify, with a limit some of them; a row qualifies only behind the cursor, or at it if that is not exclusive |
| Results.ResultIs | builder/builder.go:94-205 | the rows of a result are the first ones, up to the limit, of those that qualify, ordered by the query's ordering and then by the primary key |
| Results.RelatedAre | builder/builder.go:207-245 | each node has, for the last related subquery of each name, under that name the nodes of the subquery's own result that join with it |
| Results.RelationshipsAre | builder/builder.go:132-245 | and it has no relationships but those and the ones of its EXISTS conditions |
| Results.ChildRowsAre | builder/builder.go:207-245 | the children in a relationship are the first ones, in the subquery's order and up to its limit for each parent, of the rows that qualify and join |
| Results.FirstUnique | builder/builder.go:60-250 | what is said of those rows determines them and their order |
| ScalarSubqueries.SimpleIsAtMostOne | builder/resolve_scalar.go:204-258 | a subquery that passes the test is about at most one row |
| ScalarSubqueries.SimpleIff | builder/resolve_scalar.go:204-258 | a subquery passes the test exactly if its conjuncts pin every column of some unique key of its table to literals |
| ScalarSubqueries.EngineAnswers | engine/engine.go:293-310 | the engine's executor answers with the field of a qualifying row, and with nothing only if there is none or the limit is zero |
| ScalarResults.FirstAnswer | engine/engine.go:293-310 | the answer is the field of the row that comes first of those that qualify |
| ScalarSubqueries.LiterallyIff | builder/resolve_scalar.go:153-187 | the literal is true of the same rows as the subquery if and only if there is a value, or it is EXISTS and no qualifying row has one |
| ScalarSubqueries.ResolvedIsTrue | builder/resolve_scalar.go:100-187 | replacing single-column scalar EXISTS at every depth leaves the condition true of the same rows |
| ScalarSubqueries.NoneLeft | builder/resolve_scalar.go:100-187 | no scalar subquery is left that could have been replaced |
| ScalarResults.ResolveKeeps | builder/resolve_scalar.go:72-98 | table, alias, cursor, limit, ordering and the related subqueries, in number, order, keys and names, stay |
| ScalarResults.ResolvedBuilds | builder/resolve_scalar.go:72-98 | where a query can be built its rewritten form can |
| ScalarResults.ResultsSame | builder/resolve_scalar.go:72-187 | the rewritten query has the same rows in the same order, and in every related relationship, at every depth, the same again |
| ScalarSubqueries.EngineResolvesTrue | builder/resolve_scalar.go:100-187 | the same with the engine itself as the executor, when the subqueries it executes can be built |

## Left out

- Hydration on demand in a whole tree: `Pipeline` takes every partition that a parent can ask for as hydrated; `Hydration` treats sets that grow with the parents, for one join over one Take.
- Partial cursors (a bound or start without some sort column).
- Fetches through the Exists operator that are nested in a push, and its mutex; `ExistsOperator` is modelled for a fetch as a whole and a push as a whole.
- Fetches of the flipped join in the middle of a push; `FlippedJoin` is modelled on values because between pushes it has no state.
- Skip, Filter and the builder's wiring are functions, and the pipelines use Exists as a function: they keep no state of their own between calls apart from their output, and the edges recorded for graph tracking are not modelled.
- A subquery that is flipped: the builder passes it through unimplemented, and the model counts it as true, as the code does.
- Pipeline.PipeCarries: changes of one connection after the other; in `Parallel` each goroutine's work is one step, and the exact condition for pipelines with two connections to the pushed table is given for those on the two sides of a join, the parents' the first.
- Panics.PipeIsCalm: the panics inside a Take and inside the overlay of a join are not part of the tree's statement; the classes `TakeOperator` and `JoinOperator` show that they are not reached.
- Network.PushThrough: a source with one connection.
- JoinNetwork.PushParents: sources with one connection each; the WHERE operators are not among the objects.
- ScalarSubqueries.ResolvedIsTrue: assumes an executor that answers as `Answers` says for the subqueries that are executed; `EngineResolvesTrue` shows that the engine does for those that can be built. The list of companion subqueries is not modelled.
- UnionFanIn.MergeFetches: forward fetches; the push side of UnionFanIn and UnionFanOut, with `MergeRelationships`, is not part of this model.
- Take storage as JSON: a map from partition keys to states; the string key is not modelled.
- LIKE on values that are not strings, ILIKE, the coercion of numeric strings in comparisons, and lists on the left of an operator.
- ScalarResults.ResultsSame: asks that the rewritten query is sensible too: the EXISTS subqueries that are left are numbered anew, and may meet a related subquery of that name.
- Numbers as floats: rounding and NaN; integer types of different widths; decoding and normalizing rows.
- Sorting rows for a connection is a library call; the model sorts by insertion, and `SortedUnique` shows that the result does not depend on how.
- The SQL-backed table source, whose overlay is visible under another rule; sockets, processes, metrics and the streamer.
