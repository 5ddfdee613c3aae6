# Verified model of the YurOTS game server core

A Dafny 4.11 model of the in-memory logic of the server that carries invariants over
unbounded data, with proofs. It is checked with `dafny verify dfyconfig.toml`.

| Modules | What they model |
| --- | --- |
| `Options`, `Sequences`, `Items`, `Forest`, `Containers`, `Cloning`, `Queries`, `Counting` | items and containers: parent links, item lists, cached weights, and the operations of `container.cpp` on them |
| `Moves`, `Places`, `Adds`, `Holding`, `Weighing` | `internalMoveItem`, `internalAddItem`, `internalRemoveItem`, the walk over everything a container holds, and what cached weights amount to |
| `Money`, `Payment` | minting and paying coins |
| `Bits`, `Bytes`, `NodeFormat`, `FileLoader` | the OTB node file: block cache, parser, unescaping |
| `Attributes`, `AttributeTrip`, `ItemStream`, `PropStreams` | items as attribute streams, nested |
| `Rows`, `Inventory`, `InventoryTrip`, `InventoryRows`, `RowItems` | a player's items as database rows |
| `Conditions`, `DamageConditions` | the conditions blob, and damage over time |
| `Trade` | the trade handshake |
| `Decay` | the decay wheel |
| `WalkCache` | a creature's walk cache |
| `DatabaseTasks` | the database worker and its queue, step by step |
| `Areas` | combat areas and their rotations |
| `NpcExpressions` | arithmetic in NPC scripts |

Objects that the source updates in place are classes; what a method computes is tied to a
function of its inputs or of the old state, and the properties are proved about that
function. Items refer to each other by number: the records of all items sit in one table,
and a pointer of the source is a key of that table.

## What the proofs found

Some promises do not hold of the code as it stands. Each has a member that shows it.

- A move with limits off can lose part of a stack: `Moves.MoveKeeps` says for exactly which
  calls (`Spills`), `Moves.SpillExample` is one.
- A creature's walk cache is wrong after a diagonal step southward, because the vertical
  distance is taken without its sign: `WalkCache.RightExactly`, and `WalkCache.SouthDiagonalExactly`
  for the worlds in which it shows.
- MIRROR and FLIP of a combat area compute the new centre from the wrong dimension:
  `Areas.MirrorExactly`, `Areas.FlipExactly`; `Areas.MirrorExample` and `Areas.FlipExample` are concrete cases.
- `addMoney` can mint the wrong amount once its 32-bit product wraps: `Money.ChangeExactly`
  says for which amounts the coins add up, `Money.ChangeWraps` is one for which they do not.
- An item comes back from saving unchanged only in the cases `AttributeTrip.StorableExactly`
  describes. For example, a rune with no charges left comes back fully charged
  (`AttributeTrip.EmptyComesBackFull`, `AttributeTrip.UsedRune`), an action id
  on an immovable item is dropped, a string longer than 65535 bytes is lost, and shoot range
  and movement id are never written.
- Accepting a trade before the other side has offered anything still counts when the offer
  comes: `Trade.ConsentExactly` says when an acceptance covers the item received,
  `Trade.AcceptedUnseen` is a run in which it does not.
- The shutdown's signal to the database worker can be lost, from exactly the states
  `DatabaseTasks.ShutdownSignalLost` describes; `DatabaseTasks.ShutdownCanOvertake` reaches one.
- A product after a sum in an NPC script is left unread: `NpcExpressions.ProductAfterSum`, and
  for exactly which expressions that is not so, `NpcExpressions.ExpressionReadsExactly`.

## Model

| member | source | states |
|---|---|---|
| Containers.ItemWorld.UpdateItemWeight | src/container.cpp:118-124 | terminates up the parent chain and brings the one container whose cached weight is off, with all containers around it, up to date (modulo 2^32) |
| Containers.ItemWorld.AddThing | src/container.cpp:438-457 | a root goes to the front of the list exactly when the index is below the capacity; the forest and every cached weight stay right |
| Containers.ItemWorld.RemoveThing | src/container.cpp:517-550 | part of a stack, or the item itself with both links, leaves the container; the forest and every cached weight stay right |
| Containers.ItemWorld.UpdateThing | src/container.cpp:470-491 | the listed item changes row and count in place, the others stay; cached weights stay right |
| Containers.ItemWorld.ReplaceThing | src/container.cpp:493-515 | the new item takes the old one's position and the old one becomes a root; the forest and cached weights stay right |
| Cloning.Clone | src/container.cpp:39-47 | cloning a whole tree gives a new root equal to the original in every item, its order and its cached weight; everything that was there is unchanged and the forest and all cached weights stay right |
| Cloning.CloneWithin | src/container.cpp:39-47 | the recursion, while the containers around the copy are unfinished: it terminates and gives a copy of the same weight |
| Cloning.AddItem | src/container.cpp:63-67 | `addItem` appends without touching weights |
| Cloning.Counterpart | src/container.cpp:39-47 | everything in a copy, at any depth, is new and has its own counterpart in the original |
| Cloning.CopyWeighs | src/container.cpp:45 | the cached weight taken over from the original is the sum over the copied list |
| Containers.ItemWorld.GetThingIndex | src/container.cpp:552-562 | the position of the item, or -1 exactly when it is not in the list |
| Containers.AttachForest | src/container.cpp:438-457 | putting a root that is not around `c` into `c` keeps the parent relation acyclic |
| Containers.DetachForest | src/container.cpp:517-550 | taking an item out keeps the forest |
| Containers.ReplaceForest | src/container.cpp:493-515 | replacing an item keeps the forest |
| Containers.WeightStep | src/container.cpp:118-124 | one step of the weight walk moves the one wrong weight to the next container up |
| Containers.WalkDone | src/container.cpp:118-124 | after the walk no cached weight is wrong |
| Containers.DetachWeights | src/container.cpp:517-550 | the weight walk that runs before the list shrinks leaves every cached weight right afterwards |
| Containers.RetypeExactly | src/item.cpp:246-265 | re-typing an item: every attribute but owner, duration and decay state stays as it was; no corpse owner is left; the duration is removed, renewed in full or kept, in exactly these cases |
| Weighing.WeightIsLoad | src/item.cpp:913-920 | in every sound world the cached weight of every container is, modulo 2^32, the sum over everything under it, at any depth, of units times unit weight (the weight attribute, else the row), a stack counting once for each of its units |
| Weighing.OuterWeightStays | src/game.cpp:1114-1181 | for every move that loses nothing: splitting, merging or moving within a common outer container leaves the cached weight of that container, and of all around it, as it was |
| Queries.QueryAdd | src/container.cpp:238-290 | the answer in every case: accepts exactly when the item is pickupable, not around the container, and there is room or limits are off |
| Queries.IsAround | src/container.cpp:257-282 | the walk up the parents terminates and finds exactly the containers around |
| Queries.QueryMaxCount | src/container.cpp:292-343 | the exact number of units that fit: free slots times 100 plus the room in equal stacks |
| Queries.QueryRemove | src/container.cpp:345-365 | allowed exactly when listed, a positive count not above the stack, and movable or told to ignore that |
| Queries.QueryDestination | src/container.cpp:367-431 | finds the destination, position and item there for every index, "move up" and "wherever" included: the first equal stack with room, the parent, the container at the position, or the position itself |
| Queries.DestinationSettles | src/container.cpp:367-431 | for every index: the container keeps the item at a valid position, or sends it to its parent or to a container it lists, and then with no position |
| Holding.WorklistComplete | src/container.cpp:652-685 | a finished work list holds exactly what is under the container |
| Holding.WalkComplete | src/container.cpp:652-685 | the walk visits every item under the container exactly once |
| Holding.NextIsDeepest | src/container.cpp:652-685 | the walk goes in level order: the next item is no less deep than any item visited before |
| Holding.ContainerIterator.Advance | src/container.cpp:667-685 | one step in level order: the next item not yet visited, or the end with everything visited |
| Holding.GetItemHoldingCount | src/container.cpp:171-178 | equals the number of items under the container |
| Holding.IsHoldingItem | src/container.cpp:180-188 | true exactly for items under the container |
| Moves.FindDestination | src/game.cpp:1012-1020 | follows the redirections from `to`, at most 16, each dropping the flags, to exactly the place `Moves.Follow` names |
| Moves.FollowsOnce | src/game.cpp:1012-1020 | one redirection is all there ever is: the bound of 16 is never met |
| Moves.PlanMove | src/game.cpp:1022-1112 | the answer and the amount are `Moves.PlanOf` the call, whatever the call |
| Moves.MovesExactly | src/game.cpp:1022-1112 | for every call: something moves if and only if the place it is sent to is not the item itself, takes it and has room, the source gives that many up, and the place is not inside the traded item; how much, and what is answered; no error without a move only for an item sent to its own place |
| Moves.MoveStack | src/game.cpp:1114-1147 | the exact table after splitting, merging and placing the rest |
| Moves.MoveWhole | src/game.cpp:1114-1147 | the exact table after a whole item has moved |
| Moves.InternalMoveItem | src/game.cpp:1004-1181 | for every call: exactly what `Moves.PlanOf` the call says is carried out and answered, to the container and position the call leads to, or nothing changes; the forest, weights and stacks of at most 100 are kept |
| Moves.MoveKeeps | src/game.cpp:1114-1181 | for every call that moves something and every way of counting units by row, lasting attributes and charge: totals are conserved, lists stay within capacity unless limits are off, and no item loses its place if and only if the call does not spill: limits off, and the first equal stack beyond the capacity and unable to take all |
| Places.OntoStack | src/game.cpp:1114-1147 | for every allowed call that comes to an equal stack with room, by its index or as the first to join: that stack ends with the lesser of 100 and what it had plus what moves, only the rest becomes a new front entry, the source keeps the remainder, nothing else is touched; how much moves and what is answered |
| Places.OntoItself | src/game.cpp:1022-1026 | a call whose index names the item itself changes nothing |
| Places.ToTheFront | src/container.cpp:417-457 | for every allowed call whose index names no stack to join, no container and not the item itself: everything asked for goes to the front if there is a free slot or no limit, else nothing changes |
| Places.IntoContainer | src/container.cpp:417-431 | an index naming a container does what a call into that container does, with no flags left |
| Places.MovesUp | src/container.cpp:367-380 | "move up" does what a call into the container around does, with no flags left |
| Moves.SpillExample | src/container.cpp:427-431 | a concrete call that is accepted with no error and spills |
| Moves.FullOnlyTopsUp | src/game.cpp:1077-1089 | into a full container only what tops up an equal stack is moved |
| Adds.InternalAddItem | src/game.cpp:1190-1265 | succeeds exactly when the container accepts all of the item, then adds all of it: if stacks are looked for, equal ones are filled one after the other in list order and a new front entry holds only what is left over, else the item is the new front entry; totals by row and attributes, and everything else, stay; no stack above 100, capacity kept, remainder 0; otherwise nothing changes |
| Adds.CheckAdd | src/game.cpp:1197-1216 | the checks accept exactly when everything fits, and name the first equal stack |
| Adds.AcceptsExactly | src/container.cpp:292-343 | a stack is accepted if and only if it is pickupable, not around the container, and limits are off or 100 for each free slot and what each equal stack lacks to 100 suffice, with a slot free or such a stack looked for |
| Adds.AddByMerging | src/game.cpp:1222-1254 | the recursive call for the rest always succeeds |
| Adds.MergedAccepts | src/game.cpp:1222-1236 | a container that takes the whole still takes what a filled stack left over |
| Adds.InternalRemoveItem | src/game.cpp:1267-1303 | removes exactly the count or the item, or changes nothing |
| Money.ChangeIsExact | src/game.cpp:1451-1492 | below the wrap of the 32-bit product the three coin counts make up the amount, platinum and gold below 100 |
| Money.ChangeExactly | src/game.cpp:1457-1491 | for every amount: the coins add up to it if and only if the crystal count fits 32 bits and its product wraps not at all, or a multiple of 25 times for an amount that is no multiple of 100 |
| Money.ChangeWraps | src/game.cpp:1457-1458 | 4294970000 is minted wrongly |
| Money.MintStack | src/game.cpp:1459-1468 | one new stack, into the container if and only if that accepts it, else onto the overflow; nothing else changes |
| Money.AddMoney | src/game.cpp:1451-1492 | the stacks of the amount are minted one after the other, each into the container if it accepts it and only else onto the overflow; the worth of container and overflow together grows by exactly the amount; nothing but coins directly in the two, and their lists, changes |
| Money.RunMinted | src/game.cpp:1457-1491 | minting stacks one after the other creates exactly their worth, all of it in the purse |
| Money.FewestStacks | src/game.cpp:1459-1468 | crystal coins are minted in as few stacks as hold them |
| Money.PurseGains | src/game.cpp:1372-1492 | what is worth more or less inside the container and its overflow makes the same difference to the whole world |
| Payment.CollectMoney | src/game.cpp:1382-1425 | the collected entries add up to the worth of everything nested in the container, ascending, each item once, and of equal worth in the order in which the walk comes to them |
| Payment.BreakStack | src/game.cpp:1436-1442 | the last stack pays exactly what is owed: the change is minted as `addMoney` does, then just enough coins of the stack go |
| Payment.HandledOn | src/game.cpp:1431-1447 | what a payment leaves alone stays alone over any number of steps |
| Payment.PayFrom | src/game.cpp:1431-1447 | the ascending loop always stops exactly paid: whole stacks first, then part of one against change; only coins inside the container go |
| Payment.RemoveMoney | src/game.cpp:1372-1449 | paid if and only if the nested worth suffices, and otherwise nothing changes; then the worth of container and overflow drops by exactly the amount, change included, smallest stacks first; coins on the overflow and everything else stay |
| Bits.LowBitsRoundDown | src/fileloader.cpp:60 | masking the low bits rounds down to a multiple of their power |
| FileLoader.CacheSizes | src/fileloader.cpp:60 | the cache block size is one of four multiples of 8192, among them 24576 |
| FileLoader.BlockContains | src/fileloader.cpp:334-400 | for every block size, also those that are no power of two, the block of a position contains it |
| FileLoader.Loader.Victim | src/fileloader.cpp:355-382 | the first unused slot, else the first more than two blocks away, else the first |
| FileLoader.Loader.LoadCacheBlock | src/fileloader.cpp:355-400 | after loading, the slot holds exactly its stretch of the file; refused exactly when nothing is there |
| FileLoader.Loader.GetCacheBlock | src/fileloader.cpp:334-353 | finds or loads the block of a position |
| FileLoader.Loader.ReadByte | src/fileloader.cpp:256-279 | the byte of the file at the position, which moves on by one; fails exactly at the end of the file |
| FileLoader.Loader.SafeSeek | src/fileloader.cpp:311-321 | the position afterwards is the one asked for |
| FileLoader.Loader.SafeTell | src/fileloader.cpp:323-332 | the position of the byte last read |
| FileLoader.Loader.ReadBytes | src/fileloader.cpp:281-309 | terminates and copies exactly the range of the file, for every block size |
| FileLoader.Loader.ParseNode | src/fileloader.cpp:79-174 | terminates despite the one-byte rewind and records exactly the chain of nodes that the format defines, for every file |
| FileLoader.Loader.GetProps | src/fileloader.cpp:176-214 | the buffer holds the unescaped bytes, whatever the raw bytes are; if they are the escaped form of some properties, exactly those |
| FileLoader.UnescapeInPlace | src/fileloader.cpp:195-212 | unescaping within one buffer computes the unescaped bytes |
| FileLoader.Loader.OpenFile | src/fileloader.cpp:34-77 | succeeds exactly for an accepted identifier, a start byte and a chain that parses, and then holds that chain; every node linked has its properties inside the file, with no escape byte cut off |
| NodeFormat.UnescapeEscape | src/fileloader.cpp:195-212 | unescaping undoes escaping |
| NodeFormat.BodyOfTree | src/fileloader.cpp:79-174 | parsing one written tree gives its record and stops right behind it |
| NodeFormat.ChainOfTrees | src/fileloader.cpp:79-174 | parsing written siblings rebuilds exactly those, with exact starts and sizes |
| NodeFormat.RawsFaithful | src/fileloader.h:25-60 | each record points at the raw properties of its tree |
| NodeFormat.FileOfTrees | src/fileloader.cpp:34-174 | for every forest: a file of identifier and trees parses to exactly those trees |
| NodeFormat.ParsesExactly | src/fileloader.cpp:79-174 | for any bytes from a start byte on: they parse if and only if they begin with the text of a forest, every escape byte with its byte and no bare marker in the properties, that ends in front of an end byte or with the file; and then to that forest |
| NodeFormat.ChainInFile | src/fileloader.cpp:79-183 | whatever the file: every node of a chain that parses has its properties inside the file, with no escape byte cut off |
| NodeFormat.WholeUnescapes | src/fileloader.cpp:195-212 | such properties are unescaped without a byte from beyond them |
| Attributes.PayloadRead | src/fileloader.h:159-236 | reading a written value gives the value its width keeps and leaves the rest |
| Attributes.TagsRead | src/item.cpp:721-733 | reading written attributes restores them one by one, whatever follows |
| Attributes.AttrsReadBack | src/item.cpp:721-890 | for every item: reading its attributes into a fresh item of its kind takes exactly the written bytes |
| Attributes.ReadsExactly | src/item.cpp:365-733 | for every stream: attributes are read well if and only if what is there is known tags, each with as many bytes as it takes, and then the end, a zero byte or the count of what a container holds |
| AttributeTrip.KeyReturns | src/item.cpp:365-890 | each attribute comes back as it was if and only if its value is in range (or it is absent and not given by default) |
| AttributeTrip.SubReturns | src/item.cpp:325-363 | count, charges and fluid type come back if and only if they are in range for the kind of item |
| AttributeTrip.StorableExactly | src/item.cpp:365-890 | an item comes back unchanged if and only if it is storable |
| AttributeTrip.EmptyComesBackFull | src/item.cpp:365-890 | an item that counts charges and has none left comes back with those of a new one |
| AttributeTrip.UsedRune | src/item.cpp:365-890 | a concrete item that does not come back as it was |
| ItemStream.TreeLoads | src/iomapserialize.cpp:129-231 | for every nested item: loading its bytes takes exactly those and gives the tree with the same shape and order, each item restored |
| ItemStream.TreesLoad | src/iomapserialize.cpp:111-127 | contents written last first and pushed to the front come back in order |
| ItemStream.TreeUnchanged | src/iomapserialize.cpp:111-231 | the tree that comes back is the one saved if and only if every item in it is storable |
| PropStreams.PropWriteStream.WriteString | src/fileloader.h:227-236 | length and bytes, or an empty string when it is too long |
| PropStreams.PropWriteStream.SerializeAttr | src/item.cpp:740-890 | appends exactly the attribute bytes |
| PropStreams.PropWriteStream.SaveItem | src/iomapserialize.cpp:212-231 | appends exactly the bytes of the tree |
| PropStreams.PropStream.Read | src/fileloader.h:159-168 | succeeds exactly when enough bytes are left, and moves by them |
| PropStreams.PropStream.ReadString | src/fileloader.h:170-187 | the string of the stated length, or failure |
| PropStreams.PropStream.ReadAttr | src/item.cpp:365-719 | one attribute, or failure for an unknown tag or a short stream |
| PropStreams.PropStream.UnserializeAttr | src/item.cpp:721-733 | terminates and computes the result of the attribute stream, for every stream |
| PropStreams.PropStream.LoadItem | src/iomapserialize.cpp:129-160 | terminates and computes the result of the item stream, for every stream |
| PropStreams.PropStream.LoadContainer | src/iomapserialize.cpp:111-127 | loads the announced number of items, each to the front, and the closing zero |
| Rows.SaveItems | src/iologindata.cpp:507-565 | the rows are the level-order listing of the forest: consecutive ids from 101, each item's children in one block naming it as parent |
| Rows.ExpandOne | src/iologindata.cpp:544-563 | each further child row keeps the listing right |
| Inventory.Rebuild.LoadItems | src/iologindata.cpp:909-933 | the map of all rows with known item types |
| Inventory.Rebuild.UpdateItemWeight | src/container.cpp:118-124 | terminates when items are held by items with smaller ids, and changes every container up the chain |
| Inventory.Rebuild.InternalAddThing | src/container.cpp:633-643 | links the item, puts it to the front and adds its weight up the chain |
| Inventory.Rebuild.Place | src/iologindata.cpp:426-441 | one row goes to its slot, into its container, or nowhere |
| Inventory.Rebuild.LoadInventory | src/iologindata.cpp:417-443 | all rows placed from the highest id down |
| InventoryRows.LoadsAnyInventory | src/iologindata.cpp:417-443 | for any rows that name smaller ids as parents, saved by the server or not: an item is in the slot its row names if no item of a higher id is, else in the container its row names, else nowhere, and containers list theirs in ascending order of id |
| InventoryTrip.Owner | src/iologindata.cpp:507-565 | every row that is not a root is a child of one earlier row, the one it names |
| InventoryTrip.PlaceChild | src/iologindata.cpp:426-441 | placing one more row keeps all placed rows right, with the weight of its whole tree |
| InventoryTrip.RowRepresents | src/iologindata.cpp:417-443 | the finished table represents the saved trees |
| InventoryTrip.InventoryRoundTrip | src/iologindata.cpp:417-565 | for every inventory and any order of the rows: loading gives back the same forest, same order, same parents, with every cached weight right |
| RowItems.RowReads | src/iologindata.cpp:909-933 | every stored item is read to the end of its attributes |
| RowItems.RowStorableExactly | src/iologindata.cpp:909-933 | an item comes back from its row, `CreateItem` with its count included, if and only if it is storable |
| RowItems.ItemsRoundTrip | src/iologindata.cpp:417-565 | for every inventory of items and any order of the rows: loading gives back the same forest of items, each storable one as it was |
| Conditions.TagIndex | src/condition.cpp:328-351 | each written tag finds its own value again, repeated skill and stat tags included |
| Conditions.OneLoads | src/condition.cpp:41-104 | one written condition is created and read in full |
| Conditions.BlobLoads | src/iologindata.cpp:253-266 | for every list: the blob is read in full, giving the persistent conditions in reverse order, equal in every field but the ticks of damage |
| Conditions.LoadedExactly | src/condition.cpp:223-234 | after logging in again there are exactly the conditions that had an end and the id -1 or 0 |
| Conditions.KnownKinds | src/condition.cpp:123-171 | a condition can be created for exactly the 24 single-bit kinds |
| Conditions.ReadsExactly | src/condition.cpp:41-89 | for every stream: a condition is read well if and only if what is there is tags its class knows, each with as many bytes as it takes, up to an end tag or the end |
| Conditions.SaveConditions | src/iologindata.cpp:588-595 | writes exactly the blob |
| Conditions.CreateCondition | src/condition.cpp:173-213 | the condition the head of the stream describes, or none |
| Conditions.Unserialize | src/condition.cpp:41-50 | terminates and computes the result of the property stream, for every stream |
| Conditions.LoadConditions | src/iologindata.cpp:253-266 | terminates for every blob with the list `Conditions.BlobLoads` is about |
| DamageConditions.PoisonHitBounds | src/condition.cpp:888-898 | a poison hit takes at least one and no more than is left |
| DamageConditions.PoisonHitExactly | src/condition.cpp:888-898 | a poison hit takes whole thousandths of factor times what is left, and one where that is none |
| DamageConditions.PoisonTotal | src/condition.cpp:887-904 | poison hits add up to the starting cycle, for every factor from 10 to 1000 |
| DamageConditions.BurnTotal | src/condition.cpp:872-921 | fire takes 10 and energy 25 for every cycle |
| DamageConditions.BurnTicksFromFull | src/condition.cpp:872-921 | fire and energy end after cycle*(max_count+1)+1 executions |
| DamageConditions.ConditionDamage.StartCondition | src/condition.cpp:843-870 | the factor is clamped to 10..1000 |
| DamageConditions.ConditionDamage.ExecuteCondition | src/condition.cpp:872-921 | one execution: state, damage and whether it goes on |
| Trade.StartKeeps | src/game.cpp:2366-2397 | starting a trade over an item that passes the item test keeps players paired, items listed and apart |
| Trade.RequestKeeps | src/game.cpp:2321-2364 | a request keeps them, and its item test rules out items inside each other |
| Trade.RequestExactly | src/game.cpp:2251-2397 | for every matched market: a request takes effect if and only if it is between two players, reachable, within 100 items, over an item not on offer nor in or around one that is, the requester being idle or having acknowledged this partner, and the other idle or the requester's partner |
| Trade.RequestOffers | src/game.cpp:2376-2397 | then the item is on offer by the requester, the two are partners, an idle other side has acknowledged, and nothing else changes |
| Trade.CloseKeeps | src/game.cpp:2596-2638 | closing keeps them and leaves both sides idle |
| Trade.AcceptKeeps | src/game.cpp:2399-2493 | accepting keeps them |
| Trade.MovesNeedBoth | src/game.cpp:2420-2492 | items move exactly when both sides have accepted and both offered; each goes to the other side, and both sides are idle again |
| Trade.RunMatches | src/game.cpp:2251-2638 | in every run, however contents change: partner links are a symmetric matching without fixed points, and `tradeItems` is exactly the items on offer |
| Trade.RunKeeps | src/game.cpp:2251-2638 | in every run, what is in what may change between any two events, except among the items then on offer: in every state reached no item on offer is inside another, and players and items match as in `Trade.RunMatches` |
| Trade.AcceptRemembered | src/game.cpp:2399-2418 | in every run, however contents change, an accepting player did accept, and has kept partner and item since |
| Trade.MovedWithConsent | src/game.cpp:2420-2492 | in every run, however contents change, items only move after both have accepted, the earlier one standing accepting until then |
| Trade.ConsentExactly | src/game.cpp:2399-2492 | in every run, however contents change, that hands over an item: the item a side receives was on offer when it accepted if and only if its partner had made an offer by then |
| Trade.TradeGoesThrough | src/game.cpp:2251-2493 | in every matched market, for all idle players and all items apart: offer, counter-offer and both acceptances, in either order, hand over both items and leave the rest as it was |
| Trade.AcceptedUnseen | src/game.cpp:2366-2418 | a run in which it had not: a trade goes through although one side accepted before the other offered |
| Trade.Game.PlayerRequestTrade | src/game.cpp:2251-2364 | the state afterwards is the request step `Trade.RequestKeeps` and `Trade.RunKeeps` are about |
| Trade.Game.InternalStartTrade | src/game.cpp:2366-2397 | the state afterwards is the start step `Trade.StartKeeps` is about |
| Trade.Game.PlayerAcceptTrade | src/game.cpp:2399-2493 | the state afterwards is the accept step `Trade.AcceptKeeps` and `Trade.MovesNeedBoth` are about, with closes asked for by either side while the items change hands leaving no trace |
| Trade.Game.InternalCloseTrade | src/game.cpp:2596-2638 | the state afterwards is the close step `Trade.CloseKeeps` is about |
| Decay.StartKeeps | src/game.cpp:3847-3879 | starting any item, with time left or without, keeps every waiting item in one place |
| Decay.StartsExactly | src/game.cpp:3847-3879 | an item that cannot decay or waits already is left alone; with time left it pends; without it fires at once, and becomes what its kind says |
| Decay.TickKeeps | src/game.cpp:3881-3923 | every tick keeps every waiting item in exactly one bucket |
| Decay.RunKeeps | src/game.cpp:3847-4042 | in every run of ticks, starts, new items and cleanups, in any order: every waiting item is in exactly one bucket or the pending list, once |
| Decay.EntryDue | src/game.cpp:4034-4041 | where `cleanup` puts an item makes it due at its firing tick |
| Decay.TickTurns | src/game.cpp:3881-3923 | an item due now fires; an item due later is due one tick sooner and does not fire |
| Decay.FiresWhenDue | src/game.cpp:3847-4042 | for every run, whatever is started, made or cleaned up between its ticks: an item left decayable fires once, at the tick it is due, and not before |
| Decay.FiresExactly | src/game.cpp:3847-4042 | for every run: an item with duration D that is pending when `cleanup` comes, in a tick or on its own, and is left decayable, fires exactly at tick 4*(D/1000) after that, plus one if D mod 1000 is at least 875, and at tick 1 if D is below 1000 |
| Decay.TurnsAndWaits | src/game.cpp:3867-3923 | an item that fires and turns into a kind with time left waits again from that tick on, due after its new duration; with none it waits no more |
| Decay.ReplacedAndWaits | src/game.cpp:3867-3923 | the same for a new item that takes the place of one that fires |
| Decay.FiresAgain | src/game.cpp:3847-4042 | for every run after that: it fires again exactly as many ticks later as its new duration D gives, 4*(D/1000), plus one if D mod 1000 is at least 875, or 1 if D is below 1000 |
| Decay.ReplacementFires | src/game.cpp:3847-4042 | so does the new item |
| Decay.DroppedWhenStopped | src/game.cpp:3889-3895 | an item whose turn comes while it cannot decay stops waiting and does not fire |
| Decay.Game.CheckItem | src/game.cpp:3889-3918 | computes one item's turn |
| Decay.Game.StartDecay | src/game.cpp:3847-3879 | the wheel afterwards is the start `Decay.StartKeeps` and `Decay.RunKeeps` are about |
| Decay.Game.CheckDecay | src/game.cpp:3881-3923 | the wheel afterwards is the tick `Decay.TickKeeps` and `Decay.FiresExactly` are about |
| Decay.Game.Cleanup | src/game.cpp:4034-4042 | computes where the pending items go |
| WalkCache.StepKeeps | src/creature.cpp:486-560 | every straight step and every northward diagonal keeps the cache right, and every step does with the distance read with its sign |
| WalkCache.SouthDiagonalFails | src/creature.cpp:498-533 | every southward diagonal goes wrong in some world |
| WalkCache.RightExactly | src/creature.cpp:486-560 | a step keeps the cache right in every world if and only if it is not a southward diagonal |
| WalkCache.SouthDiagonalShows | src/creature.cpp:498-560 | which position each cell answers for after a southward diagonal: in the top row one not moved sideways, in the bottom row one moved once too often, else the right one |
| WalkCache.SouthDiagonalExactly | src/creature.cpp:498-560 | away from the edge of the map, such a step leaves the cache right in exactly those worlds in which these positions answer alike |
| WalkCache.RunKeeps | src/creature.cpp:350-560 | after any sequence of one-step moves, teleports, floor changes and tile updates the cache is right: with the distance read with its sign, or without a southward diagonal |
| WalkCache.Creature.UpdateMapCache | src/creature.cpp:286-300 | the whole window agrees with the world |
| WalkCache.Creature.ShiftSouth | src/creature.cpp:488-492 | every row moves down by one |
| WalkCache.Creature.ShiftWest | src/creature.cpp:512-528 | the named rows move left by one |
| WalkCache.Creature.OnOwnMove | src/creature.cpp:482-560 | the exact cache after a step, or a full refresh |
| WalkCache.Creature.Move | src/creature.cpp:482-560 | a right cache stays right over teleports, floor changes and all steps but southward diagonals; every move is one of the events of `WalkCache.RunKeeps` |
| WalkCache.Creature.OnTileChange | src/creature.cpp:350-382 | a tile update keeps the cache right |
| WalkCache.Creature.GetWalkCache | src/creature.cpp:319-348 | a right cache answers as the world would, and says when it cannot |
| DatabaseTasks.AlwaysGood | src/databasetasks.cpp:29-96 | under every interleaving: one thread holds the lock, tasks are conserved in order, and before shutdown the worker never sleeps on a non-empty list without a signal pending |
| DatabaseTasks.EachTaskOnce | src/databasetasks.cpp:29-96 | accepted tasks are, in order, those taken and those queued; each taken one ran once or is running |
| DatabaseTasks.AcceptedExactly | src/databasetasks.cpp:49-68 | under every interleaving the tasks accepted are, in order, exactly those brought by threads inside the locked region while the state was running |
| DatabaseTasks.PushQueues | src/databasetasks.cpp:49-68 | such a task goes to the end of the queue |
| DatabaseTasks.Drains | src/databasetasks.cpp:29-47 | from every reachable state before the shutdown takes the lock, the worker can run all that is queued |
| DatabaseTasks.CanBeRun | src/databasetasks.cpp:29-68 | under every interleaving, as long as the state is running: any task a thread brings can still be accepted and run, with all that is queued before it |
| DatabaseTasks.NothingLeft | src/databasetasks.cpp:49-96 | after the shutdown's flush every accepted task has been taken, and none is accepted later |
| DatabaseTasks.ShutdownSignalLost | src/databasetasks.cpp:29-96 | for every state in which the shutdown is about to signal: the worker can be left asleep for good if and only if it has read the thread state and not yet begun to wait |
| DatabaseTasks.StuckForever | src/databasetasks.cpp:29-96 | nothing but a wakeup without a signal ends that sleep |
| DatabaseTasks.ShutdownCanOvertake | src/databasetasks.cpp:29-96 | such a state is reached |
| Areas.RotationFits | src/combat.cpp:1735-1749 | a rotated cell is inside the output, and its own cell only |
| Areas.RotateArea | src/combat.cpp:1704-1753 | the output covers exactly the rotated tiles |
| Areas.MirrorArea | src/combat.cpp:1686-1694 | what MIRROR covers, with the centre as computed |
| Areas.FlipArea | src/combat.cpp:1695-1703 | what FLIP covers, with the centre as computed |
| Areas.MirrorExactly | src/combat.cpp:1686-1694 | it is the mirror image if and only if the input is square or empty |
| Areas.FlipExactly | src/combat.cpp:1695-1703 | it is the flip if and only if the input is square or empty |
| Areas.MirrorExample | src/combat.cpp:1686-1694 | one row of two tiles of which the centre is covered: MIRROR covers the tile beside it instead |
| Areas.FlipExample | src/combat.cpp:1695-1703 | one column of two tiles: FLIP covers the tile below the centre instead |
| Areas.CreateArea | src/combat.cpp:1755-1786 | the marked cells are covered and the last centre mark is the centre |
| Areas.SetupArea | src/combat.cpp:1788-1811 | the four directions cover the rotated tiles |
| Areas.TurnsCompose | src/combat.cpp:1788-1811 | two quarter turns make the half turn, three undo one |
| Areas.SetupExtArea | src/combat.cpp:1883-1911 | nothing for an empty list; else south-east is the mirror image of south-west for every shape, and the other two are mirror image and flip exactly for square areas |
| NpcExpressions.ExpressionReads | src/behaviourdatabase.cpp:445-623 | for every expression of the accepted shape, reading takes exactly its tokens and gives it back |
| NpcExpressions.ExpressionReadsExactly | src/behaviourdatabase.cpp:445-623 | for every expression of any shape and whatever follows: it is read back whole, leaving exactly that, if and only if it is of the accepted shape and what follows cannot carry it on |
| NpcExpressions.ExpressionIsRead | src/behaviourdatabase.cpp:445-623 | whatever the tokens: what is read is of the accepted shape, and is read as far as it goes |
| NpcExpressions.ValueReads | src/behaviourdatabase.cpp:445-571 | the same for single values, calls with nested arguments included |
| NpcExpressions.ChainReads | src/behaviourdatabase.cpp:573-623 | a chain read so far goes on with whatever follows |
| NpcExpressions.ProductAfterSum | src/behaviourdatabase.cpp:573-623 | a product after any sum is left unread |
| NpcExpressions.Script.ReadNode | src/behaviourdatabase.cpp:445-571 | terminates on any token list with the value `NpcExpressions.ValueReads` is about |
| NpcExpressions.Script.ReadOperators | src/behaviourdatabase.cpp:573-623 | terminates with the operator chain `NpcExpressions.ChainReads` is about |

## Left out

- Items are records in a table addressed by number instead of heap objects with pointers, so freeing memory and aliasing beyond links are not modelled; reference counts are not either.
- Players, tiles and depots as holders of items; the overflow tile of coins is a container without limits, and the exchange, quiver, mailbox and house branches of item movement.
- `internalAddItem` with an explicit index, `addItemBack`, item type counts, notifications to players and scripts, and `canRemove`.
- Cloning.Clone: the record of a clone is an exact copy of its original; that `CreateItem` fills in charges or a duration for an item without attributes is not modelled.
- Containers.ItemWorld.RemoveThing: a count above the stack's own, which the original turns into a stack of none.
- Containers.ItemWorld.UpdateThing: a new count outside 1 to 100 for a stackable item, which the original stores.
- Moves.InternalMoveItem: excludes FLAG_CHILDISOWNER, which `queryAdd` answers without its own checks.
- Money.AddMoney: stated below the wrap of the 32-bit product, where `Money.ChangeIsExact` applies; for larger amounts `Money.ChangeExactly` covers the counts, not the stacks made of them.
- Payment.RemoveMoney: the division by a stack's worth is taken over whole numbers; the original rounds a `double` up.
- Weapons, whose constructor rolls random attributes, beds, doors, depots and teleports as item classes; items standing on a tile that are re-read in place.
- Adds.InternalAddItem: an item still inside something, which the original only takes in test mode.
- `startDecaying` on load.
- FileLoader.Loader.ReadByte: nothing is said for a position beyond the end of the file.
- FileLoader.Loader.SafeSeek: nothing is said on when a position beyond the end of the file is refused, which depends on the blocks loaded before.
- Error codes of the node file loader, and I/O errors of the underlying file.
- Inventory.Rebuild.LoadInventory: every row must name a smaller id as its parent, as `saveItems` writes them; the original does not check this and would not end on a cycle.
- Inventory.Rebuild.LoadItems: keeps the stored data of an item; what `CreateItem` and the attribute stream make of it is `RowItems.Decoded`, which gives nothing for a stream that cannot be read, where the original keeps what it had read so far.
- Depot rows, storage, spells and all other tables of `loadPlayer` and `savePlayer`, and the database itself.
- Conditions.Unserialize: an eighth skill or fifth stat value fails to read, where the original writes past its array.
- DamageConditions.PoisonTotal: the product of factor and cycle must fit 32 bits.
- Random and floating-point damage, suppression of conditions, and the hit at the start of a condition.
- Trade.Game.PlayerRequestTrade: distances, sight, paths and item properties are one answer supplied from outside, as is whether a transfer's items fit.
- Trade.RunKeeps: that items stay in or out of each other while both are on offer is taken from outside.
- Trade.MovesNeedBoth: the second move of a transfer, whose result the original ignores, is taken to succeed with the first.
- Starting a trade over a house document, which skips the item test.
- Decay: a fired item that turns into an item without time left stops there; chains of such items and transformations from outside the wheel.
- Creature walk cache of moves longer than one tile other than teleports, and when it is first filled.
- DatabaseTasks: running a query and its callback are one step; connection handling.
- DatabaseTasks.ShutdownSignalLost: a `stop` after the shutdown, which would set the thread state back from terminated, is not among the continuations.
- Areas.CreateArea: the list must fill the rows, as it does in every caller that gives whole rows; area lists from length, spread or radius, and COPY.
- Areas.RotateArea: sines and cosines of the three angles are whole numbers here, doubles in the original.
- NpcExpressions.Script.ReadNode: a script error ends the reading; the original closes the script and goes on reading an ended file. Scanning characters into tokens.
- Lua, XML, configuration, networking, chat, accounts and guilds.
