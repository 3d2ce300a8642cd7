# A verified model of the game server's core

A Dafny 4.11 model of the parts of the game server that keep hard invariants, with proofs of
those invariants. Code that changes state step by step is modelled in the same form: classes
whose methods update their fields, loops with invariants, arrays filled in place. Each such method
is proved against a function on values, and what the server promises is proved of that function,
over every input and every run. `dafny verify dfyconfig.toml` checks everything.

| Part | Files | Main results |
|---|---|---|
| OTB tree files | OtbGrammar, OtbLoader | the stack loop accepts exactly a recursive grammar; parsing and unescaping undo serialising; growing a vector of children never moves a node that is still on the stack |
| Saved items, as a stream | ItemCodec, ItemRoundTrip, ItemFaithful, ItemOnTile, ItemStream | what a load gives back of every tree, whatever bytes follow; exactly which trees come back unchanged, in a container and on a tile; loaded weights are those of the whole subtree |
| Saved items, as rows | ItemRows, ItemRowsLoop | the rebuild loop undoes breadth-first numbering, order and cached weights included |
| Containers | ContainerWeights, ContainerObjects, ContainerTotals, ContainerIteration | cached weights stay right modulo 2^32 under add, update, replace and remove; `queryAdd` refuses exactly what would close a cycle; the iterator yields what is inside, once each, nearer items first |
| Stacks | Stacking, StackingObjects, StackMoves, StackSpread | when an item is accepted and over which stacks it is spread; where a move takes pieces from and puts them; exactly when adding or moving loses pieces or overfills a container, and that all are kept otherwise |
| Money | Coinage, Money | exact payment with change; which coins are paid, and that no other way needs fewer |
| Market | Market, MarketShares, MarketService | who pays and who is paid in every step; gold is conserved over a run exactly when expired offers are paid back on time |
| Database tasks | DatabaseTasks, TaskHistory, FairRuns, TaskProgress, WorkerEnding | every interleaving accepts exactly what is handed in while running, keeps order and loses no task; every accepted task is run in every fair continuation; in exactly which states after a shutdown every fair continuation lets the worker end |
| Trade | Trade, TradeSteps, TradeDeal, TradeService | what each step does to both players and to nobody else; partnership, offered items and references agree over every run; a transfer cannot be interrupted; exactly when it is of the items that stood when a player accepted |
| Decay | DecayWheel, DecayService | the tick in which every item fires, and the error of that; exactly when an item stands in the lists once |
| Base32 secrets | Base32 | decoding inverts the unpadded encoding of section 6 of RFC 4648 |
| Walk cache | WalkCache | which cells of the shifted grid are right after a step, exactly |
| Spell areas | AreaMatrix, AreaRotation | rotations of flat matrices turn the set of hit tiles, for every size |
| Conditions | DamageList, Conditions, ConditionTimes, ConditionList | the damage list adds up; no condition occurs twice and the speed is balanced over every run; a speed lasts for just its time |

`Basics` holds what several modules share. `Samples` fixes markers, tags, byte order and alphabet by small
inputs written out byte by byte.

Seven things the code does that its callers may not expect are stated as results, each with an
input that shows it, where one is needed, and the exact condition:

* An expired buy offer is paid back with the amount it had when the query ran. If it was accepted
  in part in between, gold appears (`Market.LatePaymentMakesGold`); `Market.RunGold` gives the
  exact condition.
* With automatic stacking switched off, `internalAddItem` can lose part of an amount and can put
  one stack too many into a container (`Stacking.ExceptionsHappen`); `Stacking.LostExactlyWhen` and
  `Stacking.OverfullExactlyWhen` give the exact conditions. With it on, neither happens.
* A move without limit into an overfull container, as `House::transferToDepot` makes it
  (sources/src/house.cpp:258), can settle on a stack that stands past the capacity. `addThing`
  refuses that slot without a word, so the stack is filled, the rest is destroyed, and the answer
  is that all was moved (`StackMoves.MoveCanLose`); `StackMoves.MoveLosesExactlyWhen` says when.
* After a step south-east or south-west the first and last row of the walk cache show neighbouring
  tiles (`WalkCache.SouthEastGoesWrong`); `WalkCache.SouthernDiagonalExactlyWhen` says when that
  makes no difference.
* A worker that tests its state just before the shutdown stores it sleeps after the only
  notification (`WorkerEnding.WorkerMaySleepForEver`). `WorkerEnding.WorkerEndsExactlyWhen` names
  the states, once the shutdown is over, from which every fair continuation lets it end.
* A player can accept before the partner has offered anything. The partner's offer and acceptance
  then start a transfer of an item the player has never accepted
  (`TradeDeal.UnseenOfferIsTransferred`); `TradeDeal.TransfersWhatStoodExactlyWhen` says when the
  items are those that stood.
* `internalAddItem` enters an item for decay without asking whether it is entered already, and
  `startDecay` asks only for the mark. `DecayService.Game.AddedItem` and
  `DecayService.Game.StartDecay` say exactly when an item then stands in the lists twice.

A saved item comes back changed in many ways: attributes that are not written (a unique id, the
action id of something that cannot be moved), values that do not fit their bytes, strings that are
empty or too long, defaults of the type that the item had lost (zero charges of a charged type), lit
rings, and a decay that is running, which comes back as pending, and on a tile as running again.
`ItemFaithful.Faithful` and `ItemOnTile.FaithfulOnTile` list what must hold of each attribute;
`ItemFaithful.ExactRoundTrip` and `ItemOnTile.TileRoundTrip` prove these lists exact.

## Model

| member | source | states |
|---|---|---|
| OtbGrammar.ParseIffGrammar | sources/src/fileloader.cpp:52-104 | the one-pass loop returns a tree exactly when the bytes are a node of the recursive grammar followed by bytes without markers, and it is that node's tree |
| OtbGrammar.ParseSound | sources/src/fileloader.cpp:52-104 | whatever the loop accepts was written by the grammar: the node and its tail are found |
| OtbGrammar.ParseComplete | sources/src/fileloader.cpp:52-104 | every node of the grammar with a quiet tail is accepted, with every offset where the grammar puts it |
| OtbGrammar.RunNode | sources/src/fileloader.cpp:63-98 | reading one whole node takes the stack back to what it was, with the node closed into its parent |
| OtbGrammar.TailIsQuiet | sources/src/fileloader.cpp:63-103 | after the root is closed any further marker makes the parse fail, and quiet bytes leave the result alone |
| OtbGrammar.UnescapeInvertsEscape | sources/src/fileloader.cpp:106-121 | removing escapes gives back every byte string, escape and marker bytes included |
| OtbGrammar.ParseInvertsSerialize | sources/src/fileloader.cpp:52-121 | parsing a serialised tree gives nodes whose kinds, children and unescaped properties are the tree's |
| Samples.SmallFile | sources/src/fileloader.cpp:52-121 | thirteen bytes with an escaped property and one child, and the tree they are |
| OtbLoader.Loader.Open | sources/src/fileloader.cpp:29-42 | a file opens exactly when it is longer than the minimum and carries the accepted or the wildcard identifier |
| OtbLoader.Loader.ParseTree | sources/src/fileloader.cpp:52-104 | the loop over node objects succeeds exactly when the parse does, and the root object then shows the parsed tree, however often vectors are relocated |
| OtbLoader.Loader.EmplaceBack | sources/src/fileloader.cpp:70-71 | growing the children of a node moves only finished nodes to new addresses and leaves what the node shows unchanged |
| OtbLoader.Loader.GrowTop | sources/src/fileloader.cpp:65-71 | the START case keeps every pointer on the stack valid while the top node's children grow |
| OtbLoader.Loader.CloseTop | sources/src/fileloader.cpp:80-87 | the END case takes the finished node off the stack and into the tree of the one below |
| OtbLoader.Loader.PushChild | sources/src/fileloader.cpp:72-79 | the new child is on top of the stack with its kind and the begin of its properties, and the loop's state is again that of the parse |
| OtbLoader.Loader.GetProps | sources/src/fileloader.cpp:106-121 | fails exactly for empty properties, and otherwise leaves the unescaped bytes in the buffer |
| ItemRoundTrip.LoadInvertsSave | sources/src/iomapserialize.cpp:116-235 | for every tree of items that exist and any bytes after it, loading what was saved gives its normal form, what the reader makes of the records that are written and the defaults of the type, children in order at every level, and leaves exactly those bytes |
| Samples.BagBytes | sources/src/iomapserialize.cpp:217-235 | a bag with fifty coins as thirteen bytes: numbers lowest byte first, the count under tag 15, the children under tag 23 |
| ItemRoundTrip.ChildrenRoundTrip | sources/src/iomapserialize.cpp:116-132 | children written from last to first and pushed to the front come back in their order, with their weight added to the box |
| ItemRoundTrip.AttrsRoundTrip | sources/src/item.cpp:388-871 | reading any run of written records, custom attributes included, has the effect of these records on any item, whatever follows |
| ItemRoundTrip.EntriesRoundTrip | sources/src/item.cpp:682-705 | the custom attributes are read back one by one, in order, names in small letters and strings as far as they can be written |
| ItemFaithful.CountIff | sources/src/item.cpp:162-183 | count, fluid and charges come back, over the defaults of a new item of the type, exactly when the type holds them so and they fit |
| ItemFaithful.CustomIff | sources/src/item.cpp:858-871 | custom attributes come back exactly when there are some, their names are short, in small letters and distinct, and their strings short |
| ItemFaithful.OwnIff | sources/src/item.cpp:162-871 | everything of an item but the decay state comes back exactly when every attribute is one that is written and fits, and no default of its type is missing; a running or pending decay comes back as pending |
| ItemFaithful.NormalIffFaithful | sources/src/item.cpp:41-871 | a tree of items that exist is its own normal form, in a stream or a row, exactly when all its items are faithful: no lit ring, nothing stored that is not written or does not fit, no default missing, no decay but a pending one, cached weights right |
| ItemFaithful.ExactRoundTrip | sources/src/iomapserialize.cpp:116-235 | the round trip returns the very tree that was saved exactly for the faithful trees |
| ItemOnTile.TileRoundTrip | sources/src/iomapserialize.cpp:134-166 | after the start of decay that follows a load onto a tile, the tree is the one saved exactly when an item that can decay was decaying with time left and everything else is faithful |
| ItemOnTile.StartDecayIs | sources/src/game.cpp:4604-4622 | a unique id, no decay time or nothing to decay to keeps an item from decaying; any other begins if it has time left |
| ItemOnTile.StartKeepsSum | sources/src/container.cpp:736-741 | starting the decay of what a container holds changes no weight |
| ItemRoundTrip.LoadedWeight | sources/src/container.cpp:724-734 | the cached weight of every loaded container is that of its whole subtree modulo 2^32 |
| ItemRoundTrip.LoadedWeights | sources/src/container.cpp:724-734 | the same for a list of loaded items |
| ItemStream.PropWriteStream.Write | sources/src/fileloader.h:146-150 | appends the value's bytes, lowest first |
| ItemStream.PropWriteStream.WriteString | sources/src/fileloader.h:152-161 | appends length and bytes, or a zero length for a string that does not fit |
| ItemStream.PropWriteStream.SerializeAttr | sources/src/item.cpp:732-871 | appends exactly the records that are due, in the order of the tags |
| ItemStream.PropWriteStream.WriteTag | sources/src/item.cpp:732-857 | appends the record of one tag, or nothing if none is due |
| ItemStream.PropWriteStream.WriteCustoms | sources/src/item.cpp:863-869 | the loop appends names and values of all custom attributes in order |
| ItemStream.PropWriteStream.SaveItem | sources/src/iomapserialize.cpp:217-235 | appends exactly the encoding of the tree that the round trip is about |
| ItemStream.PropWriteStream.SaveReversed | sources/src/iomapserialize.cpp:225-232 | the loop over the reversed items appends their encodings from last to first |
| ItemStream.PropStream.Read | sources/src/fileloader.h:84-93 | takes a number off the front, or fails without moving when too few bytes are left |
| ItemStream.PropStream.ReadStr | sources/src/fileloader.h:95-112 | takes a string off the front, or fails |
| ItemStream.PropStream.Skip | sources/src/fileloader.h:114-121 | skips exactly `n` bytes, or fails without moving |
| ItemStream.PropStream.UnserializeAttr | sources/src/item.cpp:388-725 | reads records to the end byte, to the end of the stream, or to the number of children of a box, as the specification of the reader does; what was read before a failure stays |
| ItemStream.PropStream.UnserializeCustoms | sources/src/item.cpp:682-705 | the loop reads exactly the announced number of custom attributes, or keeps those before the first that cannot be read |
| ItemStream.PropStream.LoadItem | sources/src/iomapserialize.cpp:134-166 | an item that is created anew, in a container: returns what the specification reads and leaves exactly its rest unread |
| ItemStream.PropStream.LoadOnTile | sources/src/iomapserialize.cpp:134-166 | the same on a tile, where its decay is then started |
| ItemStream.PropStream.LoadContainer | sources/src/iomapserialize.cpp:116-132 | counts the children down to zero, then fails exactly when the next byte is missing or not the end byte |
| ItemStream.SaveThenLoad | sources/src/iomapserialize.cpp:116-235 | both methods in sequence return the normal form and the following bytes, and the saved item itself exactly when it is faithful |
| ItemStream.SaveThenLand | sources/src/iomapserialize.cpp:134-235 | saved and loaded onto a tile, the very item stands there exactly when it is faithful on a tile, and the following bytes are unread |
| ItemRows.NumberedIsWellNumbered | sources/src/iologindata.cpp:602-657 | breadth-first numbering gives rising ids without gaps, every parent id below its row's own, and one row for every item of the forest |
| ItemRows.ParentsInOrder | sources/src/iologindata.cpp:602-657 | breadth-first: the items of the forest come first, and then the children of every item before those of the next |
| Samples.CoinRow | sources/src/iologindata.cpp:611-624 | the row of fifty coins: parent, own number, type, count, attribute bytes |
| ItemRows.LinkedInvertsNumbered | sources/src/iologindata.cpp:423-504 | linking the numbered rows from the highest id down gives back the items of every parent, in order |
| ItemRows.RowsRoundTrip | sources/src/iologindata.cpp:479-504 | for every forest with parent ids below 100 saving and rebuilding gives back the normal forms in order, and the very items exactly when all are faithful |
| ItemRowsLoop.RowTable.SaveItems | sources/src/iologindata.cpp:602-657 | the two loops over the growing vector of containers append exactly the breadth-first numbering |
| ItemRowsLoop.RowTable.SaveChildren | sources/src/iologindata.cpp:631-654 | the rows of one container's children, and then those still pending, are the numbering of the queue |
| ItemRowsLoop.ItemNode.InternalAddThing | sources/src/container.cpp:724-734 | the item is pushed to the front and its weight added to the cached one modulo 2^32 |
| ItemRowsLoop.LoadItems | sources/src/iologindata.cpp:1008-1032 | one object for every row, created with the type and count of the row and holding what could be read of its attributes, entered under the row's id with its parent id |
| ItemRowsLoop.LinkRow | sources/src/iologindata.cpp:482-503 | one round of the rebuild loop puts a finished item in front of its place and leaves all other places as they were |
| ItemRowsLoop.Rebuild | sources/src/iologindata.cpp:479-504 | after the loop every depot chest shows exactly the linked rows of its id, cached weights included |
| ItemRowsLoop.SaveThenLoad | sources/src/iologindata.cpp:479-657 | saving any forest with ids below 100 and loading it leaves its items in their order in the chests |
| ContainerWeights.PushSettles | sources/src/container.cpp:150-156 | pushing an amount up the parent chain settles what is due at the first container and changes nothing but cached weights |
| ContainerWeights.AddKeepsValid | sources/src/container.cpp:514-544 | putting in an item keeps the links, the absence of cycles and all cached weights right |
| ContainerWeights.ReweighKeepsValid | sources/src/container.cpp:546-567 | changing the type or count of an item keeps all cached weights right |
| ContainerWeights.RemoveKeepsValid | sources/src/container.cpp:593-626 | removing an item keeps the invariant, although its weight goes before its links |
| ContainerWeights.ReplaceKeepsValid | sources/src/container.cpp:569-591 | replacing an item keeps the invariant, although the old one loses its parent last |
| ContainerWeights.LinkUnderItselfIsCyclic | sources/src/container.cpp:317-341 | what `queryAdd` refuses as impossible would close a cycle of parents |
| ContainerWeights.LinkKeepsRooted | sources/src/container.cpp:317-341 | what it lets in leaves every chain of parents finite |
| ContainerWeights.InsideIsNotAround | sources/src/container.cpp:317-341 | an item inside a container is not also around it |
| ContainerObjects.UpdateItemWeight | sources/src/container.cpp:150-156 | the recursion adds the difference at the container and at everything around it, modulo 2^32 |
| ContainerObjects.GetThingIndex | sources/src/container.cpp:628-638 | the first position of the item, or -1 exactly when it is not listed |
| ContainerObjects.IsAbove | sources/src/container.cpp:317-341 | the loop finds the item exactly when it is around the container |
| ContainerObjects.QueryAdd | sources/src/container.cpp:270-348 | says yes exactly to what is pickupable, fits the kind of container, is not the container or anything around it, and has room; or to everything from a child that owns it; every refusal names a reason that holds |
| ContainerObjects.AddThing | sources/src/container.cpp:514-533 | the item becomes the first of the list, nothing else moves, all cached weights are right; an index out of range changes nothing |
| ContainerObjects.AddItemBack | sources/src/container.cpp:535-544 | the same at the end of the list |
| ContainerObjects.UpdateThing | sources/src/container.cpp:546-567 | a listed item takes the new type and count and all cached weights are right again |
| ContainerObjects.RemoveThing | sources/src/container.cpp:593-626 | part of a stack leaves the rest in place, the whole item leaves the list in order and has no parent; all cached weights are right |
| ContainerObjects.ReplaceThing | sources/src/container.cpp:569-591 | the new item stands in the old one's place, the old one has no parent, all cached weights are right |
| ContainerTotals.FiniteBelow | sources/src/container.cpp:150-161 | no item of a valid forest has an endless descent below it |
| ContainerTotals.PiecesWeigh | sources/src/item.cpp:893-900 | a stack weighs as much as its pieces together |
| ContainerTotals.WeightIsTreeWeight | sources/src/container.cpp:150-161 | the weight an item reports is the recursive weight of its whole tree modulo 2^32, and a container's cache that of all it holds |
| ContainerIteration.OrderIsRest | sources/src/container.cpp:743-776 | the queue yields exactly the items that are left, each once |
| ContainerIteration.OrderRises | sources/src/container.cpp:758-776 | the items come in rising depth |
| ContainerIteration.NearerFirst | sources/src/container.cpp:743-776 | from the start of an iterator on: what is inside, nearer items first |
| ContainerIteration.ContainerIterator.constructor | sources/src/container.cpp:743-751 | a new iterator has exactly what is inside the container to come, each item once |
| ContainerIteration.ContainerIterator.Current | sources/src/container.cpp:753-756 | the next item to come |
| ContainerIteration.ContainerIterator.Advance | sources/src/container.cpp:758-776 | takes that one item off what is to come, and nothing else |
| ContainerIteration.GetItemHoldingCount | sources/src/container.cpp:203-210 | the number of items inside at any depth |
| ContainerIteration.IsHoldingItem | sources/src/container.cpp:212-220 | true exactly for what is inside at any depth |
| Stacking.AddConserves | sources/src/game.cpp:1287-1368 | what is added to every kind is exactly the count less the reported remainder |
| Stacking.LostExactlyWhen | sources/src/game.cpp:1319-1351 | a remainder is left exactly when the stack spills, automatic stacking is off, there is a limit and the container is full |
| Stacking.RemainderFits | sources/src/game.cpp:1325-1333 | what is left of a spill is accepted by the second attempt exactly outside that case |
| Stacking.AcceptedExactlyWhen | sources/src/container.cpp:270-507 | with automatic stacking an item is accepted exactly when all of it fits |
| Stacking.AddKeepsStacks | sources/src/game.cpp:1287-1368 | for an item of at most a hundred no stack grows past a hundred; none shrinks, and at most one new stack stands in front |
| Stacking.OverfullExactlyWhen | sources/src/game.cpp:1287-1368 | a container within its capacity is overfilled exactly when automatic stacking is off, it is full, a slot is named and nothing there can be merged |
| Stacking.ExceptionsHappen | sources/src/game.cpp:1287-1368 | inputs for both exceptions: fifty coins lost, and a third stack in a container of two |
| Stacking.FirstPartial | sources/src/container.cpp:495-504 | the first stack of the kind with room |
| Stacking.OnlyJoinedPastCapacity | sources/src/container.cpp:432-507 | a slot past the capacity is settled on only for a stack of the kind with room there, so `internalAddItem` never asks for a new stack in one |
| StackSpread.AddSpreads | sources/src/game.cpp:1287-1368 | with automatic stacking an amount fills the stacks of its kind from the front of the list on, each with what the ones before it leave, and the rest is one new stack in front |
| StackSpread.NamedStackFirst | sources/src/container.cpp:490-494 | a stack with room in the named slot is filled before all others |
| StackingObjects.Container.QueryDestination | sources/src/container.cpp:432-507 | passes on to the parent or to a container in the slot, or settles on the slot and the stack there |
| StackingObjects.SlotLeadsInside | sources/src/container.cpp:432-481 | an item put on a container in the list goes into that one, slot 254 leads to the parent, and everything else stays |
| StackingObjects.Container.QueryAdd | sources/src/container.cpp:270-348 | answers with the verdict on the kind, then with the room |
| StackingObjects.Container.QueryMaxCount | sources/src/container.cpp:350-402 | a hundred for every free slot and the room in all other stacks of the kind |
| StackingObjects.Container.RemoveThing | sources/src/container.cpp:593-626 | part of a stack, as far as there is any, or the whole item leaves; the order of the rest is kept |
| StackingObjects.Container.AddThing | sources/src/container.cpp:514-533 | the item becomes the first of the list; an index past the capacity changes nothing |
| StackingObjects.InternalAddItem | sources/src/game.cpp:1287-1368 | the recursion on item objects refuses without any change or leaves exactly the stacks of the specification |
| StackingObjects.Join | sources/src/game.cpp:1319-1351 | the item fills the stack and its remainder is added again |
| StackMoves.MoveConserves | sources/src/game.cpp:1077-1278 | for any slot, the pieces taken leave one list, and arrive in the other less those it drops |
| StackMoves.MoveLosesExactlyWhen | sources/src/game.cpp:1077-1278 | pieces are destroyed exactly when a move without limit puts more than fits into a stack that stands past the capacity, then all that does not fit; no other move loses or makes any |
| StackMoves.MoveCanLose | sources/src/container.cpp:514-518 | sixty gold moved into an overfull container: sixty reported, twenty gone |
| StackMoves.MovedAmount | sources/src/game.cpp:1162-1182 | the returned value says success exactly when the whole amount was taken; otherwise there is a limit and what the slot had room for was taken |
| StackSpread.MoveLands | sources/src/game.cpp:1199-1232 | the pieces leave the item that is moved and no other; the stack of their kind in the slot takes what it has room for, and the rest is a new stack in front, if the slot is within the capacity |
| StackSpread.MovesExactlyWhen | sources/src/game.cpp:1110-1182 | a stack moves exactly when nothing speaks against it, it may be moved, there is room or no limit, and there are as many pieces; every refusal names what was in the way |
| StackSpread.WholeItemMovesExactlyWhen | sources/src/game.cpp:1110-1182 | an item that does not stack moves exactly when it may and a slot is free or no limit holds |
| StackMoves.MoveKeepsStacks | sources/src/game.cpp:1077-1278 | no stack grows past a hundred and the target stays within its capacity |
| StackMoves.InsideConserves | sources/src/game.cpp:1077-1278 | a move inside one container leaves the number of pieces of every kind unchanged |
| StackSpread.InsideLands | sources/src/game.cpp:1199-1232 | inside one container the pieces leave their stack, fill the one in the slot, and the rest goes to the front |
| StackMoves.InsideKeepsStacks | sources/src/game.cpp:1077-1278 | such a move keeps stacks and list within their limits |
| StackMoves.InsideExactlyWhen | sources/src/game.cpp:1110-1182 | an item that does not stack changes its slot exactly when another slot is free, and then ends up in front whatever slot was named |
| StackMoves.QueryMaxCount | sources/src/container.cpp:350-402 | the room of one slot, or of the whole container |
| StackMoves.RemovableExactlyWhen | sources/src/container.cpp:404-430 | what `queryRemove` lets through is removed exactly, with other kinds untouched and no stack left empty; a count it refuses would not be |
| StackMoves.Settle | sources/src/game.cpp:1095-1108 | the loop ends at the container that keeps the item, with the flags dropped on the way |
| StackMoves.InternalMoveItem | sources/src/game.cpp:1077-1278 | between two containers or inside one: both lists and the returned value are those of the specification, and a refusal changes nothing |
| StackMoves.Transfer | sources/src/game.cpp:1199-1232 | the pieces are gone from one list and joined to a stack or put in front in the other, or dropped when the slot lies past the capacity |
| Coinage.PaidInFullExactlyWhen | sources/src/game.cpp:1565-1593 | every amount below 2^32 is paid out in full exactly when the currency has a coin of worth one |
| Coinage.UnitCoinPays | sources/src/game.cpp:1565-1593 | with such a coin nothing is left unpaid |
| Coinage.PaysLargestFirst | sources/src/game.cpp:1571-1590 | of every amount below 2^32 each coin is paid as often as what the coins of more worth leave has room for it, and less than one of it is left |
| Coinage.FewestCoins | sources/src/game.cpp:1571-1590 | where every worth is a multiple of the next, no other way to pay as much uses fewer coins |
| Money.SplitIsExact | sources/src/game.cpp:1550-1556 | the pieces taken from the last stack are never more than it has, cover the price, and by less than one piece |
| Money.Purse.RemoveItem | sources/src/game.cpp:1370-1417 | lowers the total by the worth of the pieces and their number by just as many, and touches no other stack |
| Money.Purse.AddCoins | sources/src/game.cpp:1565-1593 | raises the number of pieces of the kind, carried or dropped, by the count, and that of no other kind |
| Money.Purse.AddMoney | sources/src/game.cpp:1565-1593 | raises the total by the amount less what the currency cannot pay; below 2^32 there are just so many more pieces of each coin as the largest-first payment gives, and no more of anything else |
| Money.Purse.PayCoins | sources/src/game.cpp:1580-1591 | the inner loop pays exactly this many coins in stacks of at most a hundred |
| Money.Purse.Gather | sources/src/game.cpp:1496-1539 | the map holds every stack of worth, least worth first, and its sum is the carried total |
| Money.EmplacedAt | sources/src/game.cpp:1490-1536 | a new entry stands behind all of at most its worth and before all of more |
| Money.Purse.Split | sources/src/game.cpp:1550-1556 | change is paid first and is worth less than one piece, so it does not join the split stack |
| Money.Purse.Spend | sources/src/game.cpp:1545-1561 | the loop always ends at some stack, having spent all stacks before it whole and none after it |
| Money.Purse.RemoveMoney | sources/src/game.cpp:1486-1563 | succeeds exactly when enough is carried, then lowers the total by exactly the price, cheapest stacks first; otherwise nothing changes |
| Market.FeeBounds | sources/src/game.cpp:5205-5210 | the fee is one percent, but at least 20 and at most 1000 gold |
| Market.CreatedGold | sources/src/game.cpp:5166-5294 | creating an offer conserves gold and takes at most one fee, within its bounds |
| Market.CancelledGold | sources/src/game.cpp:5296-5357 | cancelling an offer conserves gold |
| Market.AcceptedGold | sources/src/game.cpp:5359-5541 | accepting an offer, in part or as a whole, conserves gold |
| Market.PaidBackGold | sources/src/iomarket.cpp:121-200 | paying expired offers back never destroys gold, and conserves it exactly when none of the rows reached was accepted in part since the query |
| Market.StepKeepsValid | sources/src/game.cpp:5166-5541 | every step keeps the table and all pending queries in agreement: same player, side and price, and never more in the table than in a query |
| Market.StepGold | sources/src/game.cpp:5166-5541 | no step destroys gold, and only a late payment makes any |
| Market.RunGold | sources/src/iomarket.cpp:121-214 | over every run, with any number of queries pending, coins, balances, escrow, fees and dropped gold never shrink, and are constant exactly when every payment is on time |
| Market.BalanceWithinGold | sources/src/game.cpp:5166-5541 | a balance and a purse are never more than all the gold, so a balance cannot wrap while that fits 64 bits |
| MarketShares.AcceptPays | sources/src/game.cpp:5359-5541 | an acceptance that nothing speaks against takes the offer up by the amount; the price of a sell offer goes from the one who accepts to the owner, that of a buy offer to the one who accepts; nobody else gains or pays. Any other changes nothing |
| MarketShares.CancelPays | sources/src/game.cpp:5296-5357 | the owner, and nobody else, can cancel; a buy offer is paid back in full, the row is gone, nobody else is touched |
| MarketShares.CreatePays | sources/src/game.cpp:5166-5294 | the one who makes an offer pays the fee and, to buy, the whole price, coins first; the offer is the last row, with the next id |
| MarketShares.ExpirePays | sources/src/iomarket.cpp:121-200 | the rows reached are gone, and every player is paid the price of his buy offers among them as the query saw it |
| MarketShares.OwnOffersAreRows | sources/src/iomarket.cpp:216-223 | the number of a player's offers is that of the rows with his id |
| MarketShares.OverdueAre | sources/src/iomarket.cpp:202-206 | a query takes exactly the rows created by then |
| Market.LatePaymentMakesGold | sources/src/iomarket.cpp:121-214 | nine of ten pieces of offer 1 are sold between query and payment, and the payment makes 900 gold |
| MarketService.Service.Debit | sources/src/game.cpp:5243-5257 | takes the sum from the purse first and the rest from the balance, which does not underflow |
| MarketService.Service.FindByCounter | sources/src/iomarket.cpp:225-259 | the first row with this creation time and these low 16 bits of its id; ids begin with 1, as id 0 stands for none |
| MarketService.Service.PlayerCreateMarketOffer | sources/src/game.cpp:5166-5294 | the service's state becomes that of the step, and no balance wraps |
| MarketService.Service.PlayerCancelMarketOffer | sources/src/game.cpp:5296-5357 | the same for a cancellation |
| MarketService.Service.PlayerAcceptMarketOffer | sources/src/game.cpp:5359-5541 | the same for an acceptance |
| MarketService.Service.ProcessExpiredOffers | sources/src/iomarket.cpp:121-200 | the loop over the rows of the oldest query does what the step says, and a full inbox ends it |
| MarketService.Service.SelectExpired | sources/src/iomarket.cpp:202-214 | the query takes exactly the rows created by then, in order |
| DatabaseTasks.StepKeepsInv | sources/src/databasetasks.cpp:33-104 | every transition of worker, adders and shutdown keeps mutual exclusion, order, account of tasks, shutting and waking |
| DatabaseTasks.RunKeepsInv | sources/src/databasetasks.cpp:33-104 | every interleaving keeps the same invariant |
| DatabaseTasks.WorkerExcludes | sources/src/databasetasks.cpp:33-51 | the worker holds the lock exactly between its lock and unlock |
| DatabaseTasks.AdderExcludes | sources/src/databasetasks.cpp:53-66 | every adder holds the lock exactly between its lock and unlock |
| DatabaseTasks.ShutdownExcludes | sources/src/databasetasks.cpp:85-104 | the shutdown holds the lock exactly between its lock and unlock |
| DatabaseTasks.AdderWakes | sources/src/databasetasks.cpp:53-66 | an adder that fills the empty queue of a sleeping worker is itself about to notify |
| DatabaseTasks.TakenInOrder | sources/src/databasetasks.cpp:33-95 | in every interleaving the tasks taken out and those waiting are the accepted ones, in order |
| TaskHistory.AcceptedAreWelcome | sources/src/databasetasks.cpp:53-66 | over every run the accepted tasks are exactly those whose locked section found the state running, in the order of the sections, whatever was waiting; every call that is past its section has been through one |
| TaskHistory.NothingWelcomeAfterwards | sources/src/databasetasks.cpp:53-66 | once the state is no longer running nothing that is handed in is accepted |
| TaskHistory.SignalsExactlyWhenEmpty | sources/src/databasetasks.cpp:57-65 | a call notifies exactly when it has put its task into an empty queue |
| TaskHistory.CallReturns | sources/src/databasetasks.cpp:53-66 | in every fair continuation every call of `addTask` returns |
| TaskProgress.EveryTaskIsRun | sources/src/databasetasks.cpp:33-104 | in every fair continuation of every reachable state, whether or not the shutdown begins, every task accepted so far is run |
| TaskProgress.WorkerTakes | sources/src/databasetasks.cpp:33-51 | while a task waits and the shutdown does not begin, the worker takes one |
| TaskProgress.ShutdownTakes | sources/src/databasetasks.cpp:85-104 | while a task waits and the shutdown has begun, one is taken |
| DatabaseTasks.EmptyForEver | sources/src/databasetasks.cpp:85-104 | once the shutdown's flush is over, no continuation puts anything in the queue or is accepted |
| DatabaseTasks.AllHaveRun | sources/src/databasetasks.cpp:33-104 | after the shutdown every accepted task was run once, unless the worker still has one in hand |
| DatabaseTasks.SleepsOnlyWhenIdle | sources/src/databasetasks.cpp:33-66 | while nobody is about to notify, a sleeping worker has an empty queue |
| DatabaseTasks.SomeoneNotifies | sources/src/databasetasks.cpp:53-66 | a worker asleep with work and a free lock implies an adder between its unlock and its notification |
| FairRuns.FreeAgain | sources/src/databasetasks.cpp:33-104 | in every fair continuation of every reachable state the lock becomes free again and again |
| WorkerEnding.AwakeComesNearer | sources/src/databasetasks.cpp:33-51 | after a finished shutdown a worker that neither sleeps nor is about to comes nearer to the end of its loop |
| FairRuns.SleeperWakes | sources/src/databasetasks.cpp:53-66 | in every fair continuation a sleeping worker wakes if some adder is between its decision to signal and its notification |
| WorkerEnding.WorkerEndsExactlyWhen | sources/src/databasetasks.cpp:33-104 | in every reachable state with the shutdown over: all fair continuations, new calls of `addTask` included, end the worker exactly when it is not between its look at the state and its wait and, if it waits, some adder is about to notify |
| WorkerEnding.ShutdownWakesSleeper | sources/src/databasetasks.cpp:97-104 | a worker that waits when the shutdown notifies is woken by it and ends |
| WorkerEnding.SleepsForEver | sources/src/databasetasks.cpp:53-66 | otherwise a waiting worker waits through every continuation without a spurious wake-up, whoever calls `addTask` or `stop` |
| WorkerEnding.WorkerMaySleepForEver | sources/src/databasetasks.cpp:97-104 | a run that ends so: the shutdown notifies before the worker waits |
| Trade.FreshHasInv | sources/src/game.cpp:2601-2747 | before anybody trades the invariant holds |
| Trade.StartKeepsPartners | sources/src/game.cpp:2718-2747 | starting a trade leaves partnership mutual |
| Trade.RequestKeepsInv | sources/src/game.cpp:2601-2747 | a request keeps the invariant: mutual partners, one entry and one reference for every offered item, none inside another |
| Trade.CloseKeepsInv | sources/src/game.cpp:2943-2989 | a close keeps the invariant |
| Trade.AcceptKeepsInv | sources/src/game.cpp:2749-2863 | an acceptance keeps the invariant, whether it waits, fails or begins the transfer |
| Trade.FinishKeepsInv | sources/src/game.cpp:2853-2861 | the end of a transfer keeps the invariant |
| Trade.MoveKeepsInv | sources/src/player.cpp:1386-1397 | moving an item keeps it when every trade the item touches is closed |
| Trade.StepKeepsInv | sources/src/game.cpp:2601-2989 | every step keeps the invariant |
| Trade.RunKeepsInv | sources/src/game.cpp:2601-2989 | every run of any number of players keeps the invariant |
| TradeSteps.RequestStartsExactlyWhen | sources/src/game.cpp:2669-2747 | a request begins a trade exactly when nothing speaks against it; the item is entered with one reference, a free partner has been asked, and nobody else is touched |
| TradeSteps.FirstAcceptanceWaits | sources/src/game.cpp:2749-2766 | the first to accept waits, and nothing else changes |
| TradeSteps.SecondAcceptanceDecides | sources/src/game.cpp:2766-2796 | the second begins the transfer of both items, which are offered no longer, or frees both players if they cannot reach each other or a script objects |
| TradeSteps.FinishFreesBoth | sources/src/game.cpp:2853-2861 | the end of a transfer frees both players and changes nothing else |
| TradeSteps.FinishLetsTradeAgain | sources/src/game.cpp:2718-2861 | both can then begin another trade, also with each other |
| TradeSteps.CloseFreesBoth | sources/src/game.cpp:2943-2989 | a close outside a transfer frees both players and takes back what both offer, and inside one does nothing |
| TradeSteps.MoveEndsTouched | sources/src/player.cpp:1386-1397 | moving an item ends every trade it touches, and leaves the seat of whoever is not notified and has no notified partner |
| Trade.TransferLasts | sources/src/game.cpp:2943-2948 | whatever others request, accept, close and move, a transfer ends only by its own end |
| TradeDeal.DealStands | sources/src/game.cpp:2718-2989 | whatever anybody does while a player who has accepted waits, partner and own item are as they were, and so is the item the partner had offered |
| TradeDeal.TransfersWhatStoodExactlyWhen | sources/src/game.cpp:2749-2789 | the transfer is of the items that stood when the first player accepted exactly when the partner had offered one then, or has offered none since |
| TradeDeal.UnseenOfferIsTransferred | sources/src/game.cpp:2718-2789 | a run in which a player accepts before the partner offers, and both are then in the transfer of an item the player has not accepted |
| TradeService.Game.IsBlocked | sources/src/game.cpp:2669-2703 | the loops block exactly an item that is offered, lies in an offered item or holds one |
| TradeService.Game.RequestTrade | sources/src/game.cpp:2601-2716 | the players and `tradeItems` become those of the step |
| TradeService.Game.InternalStartTrade | sources/src/game.cpp:2718-2747 | starts exactly when the player is free or has been asked by this partner and the partner has no other, with one more reference and one more entry |
| TradeService.Game.InternalCloseTrade | sources/src/game.cpp:2943-2989 | frees both players and takes back both entries and references, or nothing during a transfer |
| TradeService.Game.AcceptTrade | sources/src/game.cpp:2749-2796 | the players and `tradeItems` become those of the step |
| TradeService.Game.FinishTrade | sources/src/game.cpp:2853-2861 | the players become those of the step that frees both |
| TradeService.Game.Release | sources/src/game.cpp:2950-2955 | the entry of an item and its reference go together |
| DecayWheel.EntersWithItsTicks | sources/src/game.cpp:4739-4761 | an item that enters a bucket has exactly its number of ticks to go |
| DecayWheel.FiringError | sources/src/game.cpp:4638-4680 | it fires at most 874 ms too early and 249 ms too late, and never late from one second on |
| DecayWheel.TickHeld | sources/src/game.cpp:4638-4680 | a tick takes out of the wheel what fires or is dropped, and nothing else |
| DecayWheel.TickItem | sources/src/game.cpp:4638-4680 | an item fires exactly when one tick is left, and otherwise is held once with one tick less |
| DecayWheel.DropsUndecaying | sources/src/game.cpp:4646-4652 | an item that can no longer decay leaves the wheel at the next look without firing |
| DecayWheel.OverdueFires | sources/src/game.cpp:4654-4663 | an item whose time is already over fires at the next look |
| DecayWheel.FiresOnTime | sources/src/game.cpp:4638-4680 | an item in the wheel is held until its last tick and fires in that one only, whatever else enters |
| DecayWheel.FiresAfterItsTicks | sources/src/game.cpp:4638-4761 | from its entry on an item of duration d fires in tick 4(d/1000), one later if d%1000 is at least 875, or in the first if d is below 1000 |
| DecayService.Look | sources/src/game.cpp:4646-4675 | the duration falls by what is left of it, at most a round, and the item stays, moves on, fires or is dropped |
| DecayService.Sweep | sources/src/game.cpp:4644-4676 | the loop over a bucket keeps, moves and fires exactly these items, in order |
| DecayService.Game.CheckDecay | sources/src/game.cpp:4638-4680 | the wheel becomes the ticked one and the fired items are reported, every item in one bucket at most |
| DecayService.Game.Cleanup | sources/src/game.cpp:4739-4761 | what has begun to decay enters the wheel and the list of it is empty |
| DecayService.Game.Enter | sources/src/game.cpp:4752-4759 | one item is appended to the bucket that is due when its duration is over |
| DecayService.Game.AddedItem | sources/src/game.cpp:1361-1365 | the end of `internalAddItem` puts an item with time left in front of the list; every item stands in the five lists once exactly when this one was in none of them |
| DecayService.Game.StartDecay | sources/src/game.cpp:4604-4622 | enters an item that can decay and is not marked as decaying; every item stands in the lists once exactly unless this one was entered and stood there already |
| Base32.DecodeInvertsEncode | sources/src/iologindata.cpp:47-74 | decoding gives back every byte string from its unpadded encoding |
| Samples.Fo | sources/src/iologindata.cpp:47-74 | the test vector `MZXQ` of section 10 of RFC 4648 decodes to `fo` |
| Base32.Decoded | sources/src/iologindata.cpp:47-74 | the key has 5n/8 whole bytes for n letters, and is empty for any foreign character |
| Base32.ByteComplete | sources/src/iologindata.cpp:66-70 | the byte taken from the 32-bit buffer is the next of the whole number, though high bits were lost |
| Base32.NoByteYet | sources/src/iologindata.cpp:66-70 | five more bits that complete no byte leave the bytes as they are |
| Base32.DecodeSecret | sources/src/iologindata.cpp:47-74 | the loop over buffer and counter computes the decoded key |
| WalkCache.MovedCell | sources/src/creature.cpp:525-604 | exactly what every consultable cell shows after a step of one tile |
| WalkCache.StepKeepsCoherent | sources/src/creature.cpp:525-604 | after a step straight on or north-east or north-west the whole grid is what a full update would give |
| WalkCache.InnerRowsCoherent | sources/src/creature.cpp:525-604 | after any step every row but the first and last is what a full update would give |
| WalkCache.SouthernDiagonalExactlyWhen | sources/src/creature.cpp:555-601 | after a step south-east or south-west the grid is right exactly when the tiles it confuses are walkable alike |
| WalkCache.SouthEastGoesWrong | sources/src/creature.cpp:555-601 | a wall from north to south is enough to make it wrong |
| WalkCache.Creature.UpdateTileCache | sources/src/creature.cpp:346-361 | sets one cell, and none outside the grid |
| WalkCache.Creature.ShiftRowsSouth | sources/src/creature.cpp:531-535 | every row takes the one above, the first stays |
| WalkCache.Creature.ShiftRowsNorth | sources/src/creature.cpp:542-546 | every row takes the one below, the last stays |
| WalkCache.Creature.ShiftColumnsWest | sources/src/creature.cpp:556-571 | from the given row on every cell takes the one to its right |
| WalkCache.Creature.ShiftColumnsEast | sources/src/creature.cpp:579-594 | from the given row on every cell takes the one to its left |
| WalkCache.Creature.OnStep | sources/src/creature.cpp:525-604 | the shifts and the refreshed edges together give exactly the moved grid |
| WalkCache.Creature.UpdateMapCache | sources/src/creature.cpp:330-344 | every cell shows its tile |
| WalkCache.Creature.GetWalkCache | sources/src/creature.cpp:363-391 | for a coherent grid the answer is that of the map, and 2 outside the grid |
| AreaMatrix.Turn90 | sources/src/combat.cpp:1284-1291 | the offsets covered after `rotate90` are exactly the (-dy, dx) of those before, for every size |
| AreaMatrix.Turn180 | sources/src/combat.cpp:1293-1297 | the offsets covered after `rotate180` are exactly the (-dx, -dy) of those before |
| AreaMatrix.Turn270 | sources/src/combat.cpp:1299-1306 | the offsets covered after `rotate270` are exactly the (dy, -dx) of those before |
| AreaMatrix.HalfIsTwoQuarters | sources/src/combat.cpp:1284-1297 | `rotate180` is `rotate90` twice, centre and size included |
| AreaMatrix.ThreeQuarters | sources/src/combat.cpp:1284-1306 | `rotate270` is a half turn and a quarter turn |
| AreaMatrix.FourQuarters | sources/src/combat.cpp:1284-1306 | one more quarter turn gives back the matrix |
| AreaMatrix.FacingArea | sources/src/combat.cpp:1343-1354 | the area of a direction covers exactly the turned offsets of its northern form |
| AreaRotation.AssignSlice | sources/src/combat.cpp:1284-1306 | a slice takes the cells of another in order, and no other cell changes |
| AreaRotation.MatrixArea.Rotate90 | sources/src/combat.cpp:1284-1291 | the slices fill a new array that is the turned matrix |
| AreaRotation.MatrixArea.Rotate180 | sources/src/combat.cpp:1293-1297 | so does the reversal |
| AreaRotation.MatrixArea.Rotate270 | sources/src/combat.cpp:1299-1306 | so do the slices of the turn to the other side |
| AreaRotation.CreateArea | sources/src/combat.cpp:36-67 | every entry is in its cell, and the centre is at the last entry that marks one |
| AreaRotation.AreaCombat.SetupArea | sources/src/combat.cpp:1343-1354 | four areas, each the given one turned to its direction |
| AreaRotation.AreaCombat.GetArea | sources/src/combat.cpp:1308-1341 | the area that faces the target, east and west before north and south |
| AreaRotation.GetList | sources/src/combat.cpp:69-94 | exactly the visible tiles at covered offsets, in the order of the cells, in 16-bit coordinates |
| DamageList.NearerMeans | sources/src/condition.cpp:1551-1553 | the comparison of relative distances means that half a hit more is still missing |
| DamageList.Round | sources/src/condition.cpp:1547-1553 | the inner loop ends after at least one hit, as near to its target as hits of this size come |
| DamageList.AfterRound | sources/src/condition.cpp:1543-1554 | one round keeps the list falling, without gaps and on schedule |
| DamageList.GenerateDamageList | sources/src/condition.cpp:1537-1555 | a falling list of all sizes from start to 1, on schedule after every size, whose total is the larger of the amount and one more than the sum before the last round |
| Conditions.AddBalanced | sources/src/creature.cpp:1217-1246 | adding or merging a condition keeps the keys unique and the speed balanced |
| Conditions.RemovedBalanced | sources/src/creature.cpp:1261-1349 | removing conditions keeps the keys unique and the speed balanced |
| Conditions.StepBalanced | sources/src/creature.cpp:1217-1390 | every step keeps the keys unique and the speed balanced |
| Conditions.RunBalanced | sources/src/creature.cpp:1217-1390 | over every run no key occurs twice and `varSpeed` is the sum of the listed deltas and of the others' changes |
| Conditions.BackToBase | sources/src/condition.cpp:1654-1657 | once no condition of speed is listed only the others' changes are left |
| ConditionTimes.SpeedLastsExactly | sources/src/condition.cpp:164-179 | a speed started at `now` for d ticks, and neither merged nor removed, is listed after every run of executions up to now + d and not after the first later one; its delta is in the speed for just that time |
| ConditionTimes.SpeedForEver | sources/src/condition.cpp:168-179 | with -1 ticks no execution ever removes it |
| ConditionTimes.MergeRenews | sources/src/condition.cpp:1659-1688 | a merge gives the one condition the new time and delta, never shortens one for ever, and leaves the others in their places |
| ConditionTimes.RemovesExactly | sources/src/creature.cpp:1261-1313 | a removal takes exactly the conditions of the type, and of the id if one is given, unless a paralysis has to wait, and keeps the others in their order |
| ConditionTimes.RemovesOne | sources/src/creature.cpp:1329-1349 | a removal of one takes that one and keeps the others in their order |
| ConditionTimes.VerdictDecides | sources/src/creature.cpp:1371-1390 | a condition without a speed stays exactly if it says so |
| ConditionList.Creature.ChangeSpeed | sources/src/game.cpp:3780-3793 | the delta is added to `varSpeed` |
| ConditionList.Creature.GetCondition | sources/src/creature.cpp:1361-1369 | the first condition with this key, or none |
| ConditionList.Creature.AddCondition | sources/src/creature.cpp:1217-1246 | list and speed become those of the step, whether merged, started or delayed |
| ConditionList.Creature.Merge | sources/src/condition.cpp:1659-1688 | a merge replaces the delta and moves the speed by the difference, if the update applies |
| ConditionList.Creature.Start | sources/src/condition.cpp:1634-1647 | a started condition is last in the list and its delta in the speed |
| ConditionList.Creature.RemoveConditions | sources/src/creature.cpp:1261-1313 | the loop removes exactly the conditions of the type and takes their deltas back |
| ConditionList.Creature.RemoveCondition | sources/src/creature.cpp:1329-1349 | removes that one, or nothing if it is not listed or has to wait |
| ConditionList.Creature.ExecuteOne | sources/src/creature.cpp:1374-1389 | a condition that is over leaves the list and gives its delta back |
| ConditionList.Creature.ExecuteConditions | sources/src/creature.cpp:1371-1390 | the loop over a copy of the list runs every condition once and removes exactly those that are over |

## Left out

Saved items and OTB files
- ItemStream.PropStream.LoadItem: the branch for items that stand on a tile of a house and are only updated (sources/src/iomapserialize.cpp:166-213) is not part of this model.
- ItemStream.PropStream.LoadOnTile: what an item whose time is up turns into is not part of this model; it is reported. Nor is whether a unique id is free, or the start of decay of a player's items at login.
- ItemRowsLoop.Rebuild: the depot loop is modelled; the inventory and locker loops (sources/src/iologindata.cpp:426-474) differ only in what a low parent id names. Rows must be numbered as a save numbers them and name types that exist.
- ItemRowsLoop.LoadItems: a row of a type that cannot be created, which the source skips, is not part of this model; no save writes one.
- ItemRoundTrip.AttrsRoundTrip: custom attributes are walked in one order and their doubles are 64 bits; the attributes of beds, doors, depots and teleports are skipped by plain items and not written.
- OtbLoader.Loader.ParseTree: reading the file into memory is not part of this model; the end offset of a node, which the constructor leaves unset, starts as 0 here.

Containers and stacks
- The weight of an `Inbox` (sources/src/inbox.cpp:66-72), whose parent skips its locker, and the cylinders of players and tiles are not part of this model.
- ContainerObjects.QueryAdd: the question passed on to the top container's owner, and the inbox around a container, are not part of this model.
- StackingObjects.Container.QueryAdd: what it says apart from room is one verdict for every kind of item; ContainerObjects.QueryAdd has the whole decision.
- StackMoves.InternalMoveItem: the exchange with the item in the slot, and the test for an item in trade, are not part of this model; moving a container into itself is refused by ContainerObjects.QueryAdd.
- Counts of a stack are at most a hundred, so that their 8 bits do not wrap; the 32-bit product of free slots and a hundred is taken as exact.

Money and market
- Money.Purse.RemoveMoney: one stack must be worth less than 2^32, as the 32-bit worth of the source has it; the order in which containers are searched does not matter for the result and is that of the list.
- Money.Purse.AddCoins: which stacks of their kind the coins join is left open, as any is right for the numbers.
- Doubles are taken as exact.
- MarketService.Service.PlayerCreateMarketOffer: whether the items were found, the limit of offers and the premium rules are inputs; a stackable sell offer takes the items but enters no row, and one of an item that is not found takes the fee only; gold is accounted for and items are not.
- Balances of players who are offline and online are one table; the history and the statistics are not part of this model.

Database tasks and trade
- DatabaseTasks.RunKeepsInv: what a task does, and its callback, are not part of this model; there is one shutdown.
- WorkerEnding.WorkerEndsExactlyWhen: fair means that a thread which could move again and again moves again and again, so a lock is granted in turn; a `stop` after the shutdown, which would store another state, is excluded.
- TaskProgress.EveryTaskIsRun: fair is meant in the same way of the worker, of calls that have begun and of a shutdown that has begun; neither calls nor the shutdown need ever begin.
- TradeService.Game.RequestTrade: distance, visibility, the limit of a hundred objects and the answers of scripts are one input.
- TradeService.Game.AcceptTrade: whether the items fit and the moving of them are an input and separate steps.
- Trade.MoveKeepsInv: that the owners of every touched trade are notified is what the callers of sources/src/player.cpp:1386-1397 and 1453-1472 provide; the callers are not part of this model.

Decay, walk cache, areas, conditions
- DecayService.Game.CheckDecay: what a fired item turns into is not part of this model; it is reported.
- DecayService.Game.StartDecay: a change of the type, which clears the mark of a listed item (sources/src/item.cpp:285), is not part of this model; that it can have happened is.
- DecayWheel.FiresAfterItsTicks: time is counted in ticks, from the entry at the end of one; an item that somebody else changes in between is not covered.
- WalkCache.Creature.OnStep: steps of other creatures, of more than one tile and between floors take other paths; coordinates do not wrap.
- AreaRotation.CreateArea: the entries must fill the rows exactly, as the source would write outside its array otherwise; areas made from a length, a radius or a ring, the extended ones, and the unused `flip`, `mirror` and `transpose` are not part of this model.
- DamageList.GenerateDamageList: floats are taken as exact and the 32-bit product as not overflowing.
- ConditionList.Creature.AddCondition: whether a haste has to wait for a paralysed walk is an input.
- ConditionList.Creature.ExecuteConditions: what a condition does when it runs, apart from its time and speed, is a verdict given as input; callbacks of `onAddCondition` and `onEndCondition` are not part of this model.

Scripts, client messages, the network, the configuration and the database itself are not part of this model.
