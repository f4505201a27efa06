# Verification of the game server's stateful core

This project models the parts of the server whose correctness rests on inverses, caches and invariants, and proves
what they are relied on for. One module stands for one component:

- `Inventory` (src/io/iologindata.cpp): nested containers are flattened into rows and rebuilt. Saving and loading are
  inverse exactly if every root goes to a place that the loader knows and, for the slots of the inventory, no place is
  used twice. `InventoryItems` puts the attribute codec into the rows: the whole forest comes back in its normal form.
- `OtbLoader` (src/io/fileloader.cpp): a stack parser for byte-stuffed nodes. It accepts exactly the format and returns
  the tree that the file holds.
- `Streams`, `AttributeStore`, `ItemCodec`, `HouseCodec` (src/io/fileloader.h, src/items/item.h, src/items/item.cpp,
  src/io/iomapserialize.cpp): byte streams, the attribute store of an item, the attribute codec, and the recursive codec of
  house items built on it.
- `WalkCache` (src/creatures/creature.cpp): the window of walkable tiles that is shifted with every step.
- `TileThings` (src/items/tile.cpp, src/items/tile.h): the item vector of a tile, its positions and its cached flags;
  `StackMove` (src/game/game.cpp) moves a stack between two such tiles.
- `CreatureLifetime`, `CreatureTurns`, `Trade`, `Money`, `Market`, `Premium` (src/game/game.cpp) and `Experience`
  (src/creatures/creature.cpp): the step machines and accounts of the game.

`Common` holds the byte type and `Option`. Code that changes fields is a class whose methods are proved against functions
on the state; the theorems are lemmas about those functions.

## Findings

Some promises that the code suggests do not hold of it. Each is stated as a lemma, with the exact condition where there is one.

- `Position::getDistanceY` (src/game/movement/position.h:69) is an absolute distance, but `Creature::onCreatureMove`
  branches on its sign. An ordinary step keeps every faithful walk cache faithful if and only if it is not a southward
  diagonal (`WalkCache.StepKeepsFaithIff`). With a signed distance every step would keep it (`WalkCache.StepIsFaithful`).
- `isIntAttrType` does not list the timestamp of a running duration, so that timestamp is never stored
  (`AttributeStore.NeverStored`), and the duration saved for a decaying item does not depend on the time it had left
  (`ItemCodec.RunningDurationLost`). A stored duration comes back if and only if the item is not decaying, or the clock
  happens to give that duration (`ItemCodec.DurationReturnsIff`).
- Of the three hooks for items of other tiles only the one for added items always refreshes the walk cache. A faithful
  cache stays faithful under a change of a tile if and only if the hook refreshes, the answer of the tile stays, or nobody
  asks about the tile (`WalkCache.TileChangeIff`). A tile that stops being a teleport, or starts to change the floor, by an
  item that does not block is missed (`WalkCache.TeleportRemovalUnseen`, `WalkCache.FloorChangeUnseen`).
- A second trip through the attribute codec changes an item in exactly three cases (`ItemCodec.SecondTripIff`).
- `addMoney` multiplies its crystal coins in 32 bits. The coins it creates are worth the amount if and only if the number
  of crystal coins fits 32 bits and their worth overflows 32 bits not at all, or a multiple of 25 times and the amount is no
  whole number of platinum coins (`Money.ChangeExactIff`); so it is exact below 4294970000 and not at it
  (`Money.ChangeOverflows`). In the last case the condition on platinum coins is there because a stack of no gold is created
  with one coin. An empty stack of platinum coins is created exactly if the low byte, but not the low 16 bits, of their
  number is zero (`Money.FullStacksIff`).
- In a sweep of a check list, callbacks that leave an active creature alone can still make it miss its turn, when they add
  creatures to the same list (`CreatureLifetime.AddedCreatureTakesTurn`). Whatever they do, a creature is sure of its turn if
  and only if it is active and, once the inactive creatures at the head of the list are dropped, the first of the list or the
  second (`CreatureTurns.TurnIsSureIff`). If they add nothing to the list, every active creature thinks
  (`CreatureLifetime.ThinksIffActive`).
- Tile flags that are not counted, such as TELEPORT, can be cleared while an item on the tile still shows them. Every
  operation on a tile leaves such a flag exact if and only if it does not take off an item that shows it, beside another
  one that does, without bringing one that does (`TileThings.ExactIff`, over runs `TileThings.RunExactIff`; for two
  teleports `TileThings.TeleportForgotten`). The flag IMMOVABLEBLOCKPATH is never set.
- Replacing or updating an item can put it into the wrong part of the item vector: the parts stay in order exactly if both
  items belong to the same part (`TileThings.LayoutIff`). The flags stay sound all the same (`TileThings.RunIsSound`).
- `updatePremium` with a clock that is a day or more behind the account counts the negative days as a huge positive number.
  As long as 32 bits count the days, it keeps the end of the premium if and only if the clock is less than a day behind
  (`Premium.ClockBehind`, for any clock `Premium.ExpiryKeptIff`); otherwise the premium is gone or its end moves 2^32 days
  into the past (`Premium.MovedExpiry`).

## Model

| member | source | states |
|---|---|---|
| `Inventory.SaveItems` | src/io/iologindata.cpp:768-860 | the rows written for any forest form the breadth-first layout: sids are consecutive from 101, every root has its pid, every other row names a smaller sid, and the children of a container are consecutive and in order |
| `Inventory.SaveChildren` | src/io/iologindata.cpp:818-857 | the inner loop writes one row for each child of the container taken from the queue and appends the containers among them, which keeps the layout and makes the queue smaller |
| `Inventory.KidsOfRow` | src/io/iologindata.cpp:571-594 | the loaded rows that name a row as parent are exactly the children that were written for it |
| `Inventory.SubtreeReturns` | src/io/iologindata.cpp:571-594 | descending-sid front insertion rebuilds below every row the tree that was saved there |
| `Inventory.SavedRowsMap` | src/io/iologindata.cpp:1323-1347 | loading the written rows in descending order gives a map with exactly those rows under their sids |
| `Inventory.PlaceReturns` | src/io/iologindata.cpp:571-594 | each place holds, in order, the trees that were saved for it |
| `Inventory.RoundTripIff` | src/io/iologindata.cpp:562-860 | for every forest and each of the three loaders, loading what was saved gives the same forest at the same places if and only if the roots are placeable |
| `Inventory.SavedReturnsIff` | src/io/iologindata.cpp:562-860 | the same for any rows that are a breadth-first layout of the forest |
| `Inventory.LoadItems` | src/io/iologindata.cpp:1323-1347 | the item map holds a fresh, empty item for every row of a known type, under its sid |
| `Inventory.Attach` | src/io/iologindata.cpp:584-592 | an item goes to the front of its container, which after it holds exactly the children met so far |
| `Inventory.Rebuild` | src/io/iologindata.cpp:571-594 | the descending loop ends with every container holding its children and every place its items |
| `Inventory.SaveAndLoad` | src/io/iologindata.cpp:562-860 | running both on objects puts every saved tree back at its place with everything in it in order |
| `Inventory.Item.InternalAddThing` | src/items/containers/container.cpp:767-777 | the item is put in front of the list |
| `InventoryItems.RecordReturns` | src/io/iologindata.cpp:1323-1347 | creating an item with the stored type and subtype and reading the stored bytes gives the normal form of the item that was saved, unless a custom attribute has no value |
| `InventoryItems.TreeReads` | src/io/iologindata.cpp:768-1347 | the tree of rows of an item tree reads back as the tree with every item in its normal form |
| `InventoryItems.ForestReturns` | src/io/iologindata.cpp:562-1347 | for every placeable forest, each of the loaders and whatever rows saving makes of it, every place gets its trees back in order, with every item in its normal form |
| `InventoryItems.ForestReturnsIff` | src/io/iologindata.cpp:562-1347 | every place of a forest has its trees back in their normal form if and only if the roots are placeable |
| `InventoryItems.SaveRecord` | src/io/iologindata.cpp:805-811 | the row of an item has its type, its subtype and its attribute bytes and nothing left in the stream by the item before |
| `InventoryItems.LoadRecord` | src/io/iologindata.cpp:1326-1341 | makes an item of every row of a known type, in the decoded state unless its attributes cannot be read |
| `OtbLoader.ParsePrinted` | src/io/fileloader.cpp:55-107 | a file holding the printed form of any tree, then bytes without markers, parses to that tree |
| `OtbLoader.RunNode` | src/io/fileloader.cpp:55-107 | from any state of the parser with an open node, the bytes of a whole node are consumed and add just that node as a child |
| `OtbLoader.RunSpine` | src/io/fileloader.cpp:55-107 | whenever parsing succeeds with the stack on the rightmost open spine, the file is the printed form of some tree and the result is that tree |
| `OtbLoader.ParseIff` | src/io/fileloader.cpp:55-107 | parsing returns a tree if and only if the file is of the format and holds that tree |
| `OtbLoader.UnescapeStuff` | src/io/fileloader.cpp:109-124 | unescaping undoes byte stuffing for all property bytes, and stuffed bytes contain no bare marker |
| `OtbLoader.DocumentReturns` | src/io/fileloader.cpp:31-124 | a written document is parsed and its properties read back, for all documents but the single node without properties, which the size check rejects |
| `OtbLoader.Loader.Open` | src/io/fileloader.cpp:31-43 | a file is accepted exactly if it is long enough and its identifier is the accepted one or all zero |
| `OtbLoader.Loader.ParseTree` | src/io/fileloader.cpp:55-107 | the loop with its stack computes the parse, and a returned tree is one that the file holds |
| `OtbLoader.Loader.GetProps` | src/io/fileloader.cpp:109-124 | fails exactly for an empty range and otherwise returns the unescaped bytes of the range |
| `Streams.BytesRoundTrip` | src/io/fileloader.h:156-160 | the bytes of an integer of any width stand for it modulo that width |
| `Streams.ReadWrittenString` | src/io/fileloader.h:105-171 | a written string is read back and nothing behind it is touched; one too long for its length field comes back empty |
| `Streams.PropWriteStream.Write` | src/io/fileloader.h:156-160 | appends the little-endian bytes and changes nothing before them |
| `Streams.PropWriteStream.WriteString` | src/io/fileloader.h:162-171 | appends length and bytes, or only a zero length if the string is too long |
| `Streams.PropStream.Read` | src/io/fileloader.h:94-103 | either too few bytes are left and nothing is consumed, or the value is read and exactly its bytes are consumed |
| `Streams.PropStream.ReadString` | src/io/fileloader.h:105-122 | fails exactly if the length field or the announced bytes are missing |
| `AttributeStore.ItemAttributes.GetExistingAttr` | src/items/item.cpp:2512-2522 | finds the entry of a kind if and only if the map that the store stands for has the kind, with its value |
| `AttributeStore.ItemAttributes.PutAttr` | src/items/item.cpp:2524-2537 | looking an entry up or appending it and writing to it is a map update that keeps one entry and one bit for each kind |
| `AttributeStore.ItemAttributes.SetIntAttr` | src/items/item.cpp:2494-2501 | sets an integer kind in the map and does nothing for any other kind |
| `AttributeStore.ItemAttributes.IncreaseIntAttr` | src/items/item.cpp:2503-2510 | adds to the value in the map, or to zero if there is none |
| `AttributeStore.ItemAttributes.SetStrAttr` | src/items/item.cpp:2450-2463 | sets a string kind in the map and ignores empty strings and other kinds |
| `AttributeStore.ItemAttributes.GetIntAttr` | src/items/item.cpp:2481-2492 | returns the value in the map, zero if there is none |
| `AttributeStore.ItemAttributes.GetStrAttr` | src/items/item.cpp:2437-2448 | returns the string in the map, the empty one if there is none |
| `AttributeStore.ItemAttributes.RemoveAttribute` | src/items/item.cpp:2465-2479 | moving the last entry into the gap, also when it is the removed one, and clearing the bit removes just that kind from the map |
| `AttributeStore.ItemAttributes.SetCustomAttribute` | src/items/item.h:410-430 | the value replaces the one under the lower-case key |
| `AttributeStore.ItemAttributes.RemoveCustomAttribute` | src/items/item.h:451-460 | removes the lower-case key and tells whether it was there |
| `AttributeStore.ListsSwapRemove` | src/items/item.cpp:2471-2477 | swap with the last entry and removal leaves a list of exactly the other kinds |
| `AttributeStore.RunTyped` | src/items/item.h:464-501 | every run of operations keeps each value in the class of its kind and no empty string |
| `AttributeStore.NeverStored` | src/items/item.h:464-501 | no run of operations from an empty store ever stores the duration timestamp or the imbuement type |
| `AttributeStore.BitsOfStores` | src/items/item.cpp:246-248 | two attribute words are equal exactly if the two stores have the same kinds |
| `AttributeStore.AttributedItem.Equals` | src/items/item.cpp:227-267 | holds if and only if the ids agree, both or neither has a store, the kinds agree and every integer and string agrees, whatever the order of the entries |
| `AttributeStore.EqualIsEquivalence` | src/items/item.cpp:227-267 | that relation is reflexive, symmetric and transitive |
| `AttributeStore.CustomNotCompared` | src/items/item.cpp:250-264 | items that differ only in custom attributes are equal |
| `ItemCodec.WrittenInt` | src/io/fileloader.h:94-160 | an integer written and read with one type arrives converted to that type |
| `ItemCodec.TagsDistinct` | src/items/items_definitions.hpp:349-388 | no two saved kinds share a tag and none has the tag of something else |
| `ItemCodec.OrderComplete` | src/items/item.cpp:777-921 | the order of writing names every saved kind exactly once |
| `ItemCodec.KindReturns` | src/items/item.cpp:423-921 | what is written for one kind is consumed as a whole and read back as its setter stores it |
| `ItemCodec.EntriesReturn` | src/items/item.cpp:717-739 | custom attributes come back in their order, unless one has no value, which makes reading fail |
| `ItemCodec.EffectsAt` | src/items/item.cpp:777-921 | after reading all kinds, each holds what was written for it and every other is as in a new item |
| `ItemCodec.AttributesReturn` | src/items/item.cpp:423-921 | for every item, reading what was written into a new item of its type arrives at the normal form just behind the written bytes, whatever follows; it fails exactly if a custom attribute has no value |
| `ItemCodec.EndReturns` | src/items/item.cpp:758-769 | the zero byte ends the attributes and leaves the suffix |
| `ItemCodec.ChildrenReturn` | src/items/containers/container.cpp:142-151 | the number of children ends the attributes of a container and is stored |
| `ItemCodec.SecondTripIff` | src/items/item.cpp:423-921 | the normal form is stable under a second trip if and only if no fluid has 256 charges or more, no plain item has charges that leave a count other than one, and no date is a nonzero multiple of two to the power of 32 |
| `ItemCodec.SavableReturns` | src/items/item.cpp:423-921 | a value that fits its field and its setter comes back as it was, for every kind |
| `ItemCodec.SavableIff` | src/items/item.cpp:423-921 | for every kind, a value comes back as it was if and only if it fits its field and its setter, or is the duration of a decaying item and what the clock makes of it |
| `ItemCodec.DecayingWaits` | src/items/item.cpp:516-527 | a decaying item comes back waiting for its decay, a stopping one not decaying, and owners, door ids and unique ids do not come back |
| `ItemCodec.ExactReturn` | src/items/item.cpp:423-921 | an item all of whose values can be saved and whose count, fluid and charges are proper to its type comes back exactly |
| `ItemCodec.RunningDurationLost` | src/items/item.h:771-782 | the duration saved for a decaying item is that of the negated clock |
| `ItemCodec.DurationReturnsIff` | src/items/item.h:771-782 | a duration comes back if and only if the item is not decaying, or it is what the clock gives |
| `ItemCodec.Item.constructor` | src/items/item.cpp:181-208 | a new item has the count, charges, fluid and default duration of its type |
| `ItemCodec.Item.SetItemSubType` | src/items/item.cpp:409-421 | the subtype goes to the fluid, the count or the charges as the type says, cut to its width |
| `ItemCodec.Item.SerializeAttr` | src/items/item.cpp:777-921 | appends the specified bytes and changes neither the item nor what was written before |
| `ItemCodec.Item.ReadAttribute` | src/items/item.cpp:423-756 | one attribute is read, skipped, or refused as specified, and exactly its bytes are consumed |
| `ItemCodec.Item.UnserializeAttr` | src/items/item.cpp:758-769 | the loop stops at zero, at the end, at children or at an error, in the specified state |
| `HouseCodec.TreeReturns` | src/io/iomapserialize.cpp:115-234 | for every item tree and every suffix, loading consumes exactly the saved bytes and returns the tree with every item in its normal form and all children in order; it fails exactly if some item has a custom attribute without a value |
| `HouseCodec.ForestReturns` | src/io/iomapserialize.cpp:115-131 | children saved from last to first and put in front one by one come out in their order |
| `HouseCodec.Loading` | src/io/iomapserialize.cpp:133-164 | every successful load consumes bytes, so the mutual recursion ends |
| `HouseCodec.SaveItem` | src/io/iomapserialize.cpp:216-234 | appends the bytes of the tree that the objects stand for |
| `HouseCodec.SaveReversed` | src/io/iomapserialize.cpp:227-230 | the loop over the children runs from the last to the first |
| `HouseCodec.LoadItem` | src/io/iomapserialize.cpp:133-164 | builds fresh objects that stand for the loaded tree, skips an unknown id, and fails as specified |
| `HouseCodec.LoadContainer` | src/io/iomapserialize.cpp:115-131 | loads as many items as the container announced and then needs a zero byte |
| `WalkCache.RecomputedIsFaithful` | src/creatures/creature.cpp:298-329 | a full update answers every query truthfully, also where coordinates wrap |
| `WalkCache.StepIsFaithful` | src/creatures/creature.cpp:496-589 | with a signed vertical distance every step of at most one tile on each axis keeps a faithful cache faithful; with the absolute one every step but a southward diagonal |
| `WalkCache.StepKeepsFaithIff` | src/creatures/creature.cpp:496-589 | an ordinary step keeps every faithful cache faithful if and only if it is not a southward diagonal |
| `WalkCache.SouthDiagonalDamage` | src/creatures/creature.cpp:496-589 | after a southward diagonal all answers outside the first and the last row of the window are still true |
| `WalkCache.SouthDiagonalMisreads` | src/game/movement/position.h:69-71 | there are worlds for every southward diagonal in which an up-to-date cache is wrong after it |
| `WalkCache.TileChangeIff` | src/creatures/creature.cpp:362-394 | when an item of a tile changes, a faithful cache stays faithful if and only if the hook refreshes the tile, the answer of the tile stays, or the tile is outside the window or that of the creature |
| `WalkCache.HookLearnsIff` | src/creatures/creature.cpp:362-394 | a hook keeps every faithful cache faithful if and only if its filter on the types always refreshes |
| `WalkCache.TeleportRemovalUnseen` | src/creatures/creature.cpp:383-394 | taking a teleport that neither blocks nor is ground off a tile that is free otherwise makes a faithful cache wrong |
| `WalkCache.FloorChangeUnseen` | src/creatures/creature.cpp:369-381 | so does an item that becomes one that changes the floor, if neither type blocks |
| `WalkCache.RunIsFaithful` | src/creatures/creature.cpp:298-589 | over every run of own moves, moves of others, tile changes and teleports, a cache answers like one computed from scratch if since the last full update there was no southward diagonal and no missed change |
| `WalkCache.Creature.UpdateMapCache` | src/creatures/creature.cpp:298-312 | the nested loops fill the window from the tiles around the creature |
| `WalkCache.Creature.OnOwnMove` | src/creatures/creature.cpp:496-589 | the in-place shifts and refreshed rows and columns are the specified movement of the window |
| `WalkCache.Creature.OnOtherMove` | src/creatures/creature.cpp:577-588 | the two tiles of another creature's move are refreshed |
| `WalkCache.Creature.OnOwnAppear` | src/creatures/creature.cpp:396-410 | an appearing creature has a faithful cache |
| `WalkCache.Creature.OnAddTileItem` | src/creatures/creature.cpp:362-367 | an added item of the same floor refreshes its tile |
| `WalkCache.Creature.OnUpdateTileItem` | src/creatures/creature.cpp:369-381 | an updated item refreshes its tile if its old or its new type blocks |
| `WalkCache.Creature.OnRemoveTileItem` | src/creatures/creature.cpp:383-394 | a removed item refreshes its tile if its type blocks or is ground |
| `WalkCache.Creature.OnOtherAt` | src/creatures/creature.cpp:396-422 | another creature that appears or disappears on the same floor refreshes its tile |
| `WalkCache.Creature.GetWalkCache` | src/creatures/creature.cpp:331-360 | answers from the window, and two if the cache is not used |
| `TileThings.GetThingDefined` | src/items/tile.cpp:1358-1388 | there is a thing at exactly the positions below the number of things, and it is on the tile |
| `TileThings.GetThingInjective` | src/items/tile.cpp:1358-1388 | different positions hold different things |
| `TileThings.Tile.GetThingIndex` | src/items/tile.cpp:1171-1221 | the index of a thing is the position at which getThing finds it, and -1 exactly for things that are not in the part of the tile where things of their type stand |
| `TileThings.FindableIff` | src/items/tile.cpp:1171-1221 | with the parts of the vector in order these are exactly the things that are not on the tile |
| `TileThings.Tile.GetThingAt` | src/items/tile.cpp:1358-1388 | ground, top items, creatures and down items in this order |
| `TileThings.SetKeepsFlags` | src/items/tile.cpp:1551-1608 | setting the flags of an added item keeps the flag cache sound |
| `TileThings.ResetKeepsFlags` | src/items/tile.cpp:1610-1669 | clearing the flags of a removed item keeps the flag cache sound |
| `TileThings.ReplaceKeepsFlags` | src/items/tile.cpp:1023-1073 | so does clearing and setting for an item that takes the place of another, whether or not the new one is counted in between |
| `TileThings.TakeExactIff` | src/items/tile.cpp:1610-1669 | removing an item leaves an uncounted flag exact if and only if not both it and another item show the flag |
| `TileThings.PutExactIff` | src/items/tile.cpp:1551-1608 | after an item is added a flag is exact if and only if it was or the item shows it |
| `TileThings.SwapExactIff` | src/items/tile.cpp:1551-1669 | replacing or updating an item leaves an uncounted flag exact if and only if not both the old item and another one, and not the new one, show it |
| `TileThings.ExactIff` | src/items/tile.cpp:870-1163 | every operation leaves an uncounted flag that is exact exact if and only if it does not take off an item that shows it, beside another one that does, without bringing one that does |
| `TileThings.RunExactIff` | src/items/tile.cpp:870-1163 | an uncounted flag is exact after every operation of a run if and only if no operation forgets it |
| `TileThings.TeleportForgotten` | src/items/tile.cpp:1640-1642 | when one of two teleports leaves, the flag is cleared although the other stays |
| `TileThings.MembersAre` | src/items/tile.cpp:870-1163 | every operation takes at most one item off, brings just the items it names, and touches no other |
| `TileThings.ApplySound` | src/items/tile.cpp:870-1163 | no operation makes a flag wrong or lets a thing stand on the tile twice, on a tile with parts in order or not |
| `TileThings.LayoutIff` | src/items/tile.cpp:870-1163 | the two parts of the vector stay in order if and only if no item gets a type of the other part |
| `TileThings.SortedIff` | src/items/tile.cpp:870-1163 | the top items stay sorted if and only if an item that changes in its place still stands between its neighbours |
| `TileThings.RunIsSound` | src/items/tile.cpp:870-1163 | over every sequence of operations flags stay sound and things distinct, and parts and order stay if every change fits |
| `TileThings.PutTopKeeps` | src/items/tile.cpp:941-961 | a top item goes behind the down items, keeps the order and adds just itself |
| `TileThings.TakenKeeps` | src/items/tile.cpp:1127-1160 | taking any item off keeps the two parts, their count and the order, and takes only that item |
| `TileThings.AddedMembers` | src/items/tile.cpp:875-981 | adding adds the item, takes away the ground, splash or field that makes room and nothing else, and does nothing exactly on a full tile or for a field that may not be replaced |
| `TileThings.OneSplash` | src/items/tile.cpp:923-938 | a tile with at most one splash has just the new one afterwards |
| `TileThings.AmongEquals` | src/items/tile.cpp:942-961 | among top items of its order addThing puts the new one first and internalAddThing last |
| `TileThings.SlotIsPosition` | src/items/tile.cpp:1004-1060 | replaceThing replaces exactly the item that getThing finds at the index |
| `TileThings.Tile.SetTileFlags` | src/items/tile.cpp:1551-1608 | adds exactly the flags that the item shows, never IMMOVABLEBLOCKPATH |
| `TileThings.Tile.ResetTileFlags` | src/items/tile.cpp:1610-1669 | clears a counted flag exactly if no other item shows it, and any other flag that the item shows |
| `TileThings.Tile.AddItem` | src/items/tile.cpp:875-981 | the in-place insertion, with what makes room for it, is the specified operation, flags included |
| `TileThings.Tile.InternalAddItem` | src/items/tile.cpp:1500-1549 | the same without replacing anything, top items going behind their equals |
| `TileThings.Tile.RemoveItem` | src/items/tile.cpp:1076-1163 | takes an item or part of a stack as specified, from any tile |
| `TileThings.Tile.UpdateThing` | src/items/tile.cpp:983-1002 | changes the type of an item in its place, and its count if the number stands for one, as specified, on any tile |
| `TileThings.Tile.ReplaceThing` | src/items/tile.cpp:1004-1074 | puts an item in the place of the one at the index as specified, on any tile |
| `TileThings.Tile.AddCreature` | src/items/tile.cpp:882-887 | a creature goes in front of the others and nothing else changes |
| `TileThings.Tile.RemoveCreature` | src/items/tile.cpp:1075-1087 | takes the creature out if it is there and changes nothing else |
| `StackMove.MoveStack` | src/game/game.cpp:1631-1779 | moving part of a stack or all of it, between two tiles or within one, preserves the total count of every item type, makes no stack larger than a hundred and leaves none that is empty; between two tiles exactly the moved count leaves the one and arrives on the other; it succeeds in exactly the stated cases |
| `StackMove.Merge` | src/game/game.cpp:1751-1759 | what is merged into the stack on top is added to it and to nothing else |
| `StackMove.Take` | src/game/game.cpp:1745-1748 | what is removed is taken from the count of that type and no other |
| `CreatureLifetime.PerformInv` | src/game/game.cpp:1028-1113 | every operation keeps references counted as placed, listed, queued or held, and list flags in step with the lists |
| `CreatureLifetime.CleanupFacts` | src/game/game.cpp:6589-6601 | emptying the release queue deletes exactly the queued creatures that have no other reference |
| `CreatureLifetime.InList` | src/game/game.cpp:5311-5359 | whoever is in a check list exists, is there once and has not been deleted |
| `CreatureLifetime.DroppedInv` | src/game/game.cpp:5345-5352 | an inactive creature leaves its list by a swap with the last one and its reference becomes a pending release |
| `CreatureLifetime.ThinkersStay` | src/game/game.cpp:5332-5359 | those that thought stay in front of the list, in order |
| `CreatureLifetime.ThinksAtMostOnce` | src/game/game.cpp:5332-5359 | whatever the callbacks do, no creature thinks twice in a sweep |
| `CreatureLifetime.ThinksIffActive` | src/game/game.cpp:5332-5359 | a creature that the callbacks leave alone, in a list to which they add nothing, thinks if and only if it is active |
| `CreatureLifetime.AddedCreatureTakesTurn` | src/game/game.cpp:5332-5359 | a list, and a callback that adds a creature to it, with which the active creature at its end misses its turn |
| `CreatureTurns.LedState` | src/game/game.cpp:5345-5352 | every sweep of a list is a sweep of the list without the inactive creatures that come to its head |
| `CreatureTurns.FirstTwoThink` | src/game/game.cpp:5332-5359 | in a list that an active creature leads, the first creature thinks, and so does the second if it is active, whatever callbacks do that leave it alone |
| `CreatureTurns.Overtaken` | src/game/game.cpp:5332-5359 | for any other creature there are callbacks that leave it alone and with which it does not think |
| `CreatureTurns.TurnIsSureIff` | src/game/game.cpp:5332-5359 | a creature thinks under all callbacks that leave it alone if and only if it is active and the first or the second of its list once the inactive ones at the head are dropped |
| `CreatureLifetime.RemovedIsDeleted` | src/game/game.cpp:1053-1113 | after its removal a creature that nobody else holds is still alive and is deleted by the next sweep of its list |
| `CreatureLifetime.EveryRunIsSafe` | src/game/game.cpp:1006-1113 | in every run of operations and sweeps references are exact, nothing in a list is deleted and the list flag holds exactly for those in one list once |
| `CreatureLifetime.Game.CheckCreatures` | src/game/game.cpp:5332-5359 | the loop with its in-place removal performs the specified sweep |
| `CreatureLifetime.Game.Cleanup` | src/game/game.cpp:6589-6601 | the loops release every queued creature and empty the queue |
| `CreatureLifetime.Game.AddCheckOf` | src/game/game.cpp:5311-5323 | adds to the list once and takes a reference |
| `CreatureLifetime.Game.RemoveCreatureOf` | src/game/game.cpp:1053-1113 | queues the release and deactivates, once |
| `Trade.StartKeeps` | src/game/game.cpp:4001-4032 | starting a trade keeps partnership symmetric and irreflexive, states in step with partners and offers, and offers listed and not nested |
| `Trade.CloseKeeps` | src/game/game.cpp:4233-4275 | so does closing one |
| `Trade.RunIsSafe` | src/game/game.cpp:4001-4275 | so does every run of requests, acceptances and closings |
| `Trade.CloseMasked` | src/game/game.cpp:4236-4238 | while items change hands, closing a trade of the two players does nothing and closing any other one works as usual |
| `Trade.AcceptanceStands` | src/game/game.cpp:3952-4275 | in any safe state an acceptance stands with its offer through every step, and is taken back exactly by the steps that end the trade |
| `Trade.CounterOffer` | src/game/game.cpp:4001-4058 | the partner of an acceptance may make its counter-offer only after it, which leaves the acceptance as it was, or accept without one |
| `Trade.Game.RequestTrade` | src/game/game.cpp:3952-4032 | an item that is offered, holds an offer or lies in one is refused; otherwise the trade starts as specified and takes one reference |
| `Trade.Game.CloseTrade` | src/game/game.cpp:4233-4275 | both sides become idle, their offers leave the table and each reference is given back once |
| `Trade.Game.AcceptTrade` | src/game/game.cpp:4034-4132 | the second acceptance ends the trade of both players, also when other trades are closed while the items move, and gives each reference back once |
| `Money.ChangeExactIff` | src/game/game.cpp:2139-2180 | for every amount, the created coins are worth it if and only if its crystal coins fit 32 bits and their worth overflows 32 bits never, or a multiple of 25 times and gold is left |
| `Money.FullStacksIff` | src/game/game.cpp:2160-2180 | for every amount, all stacks have 1 to 100 coins, and some stack has none, exactly as the low bytes of the number of platinum coins say |
| `Money.ChangeExact` | src/game/game.cpp:2139-2180 | below the first overflow the created stacks have 1 to 100 coins and are worth exactly the amount |
| `Money.ChangeOverflows` | src/game/game.cpp:2145-2146 | at the first overflow 4096 gold too many are created |
| `Money.Cylinder.AddMoney` | src/game/game.cpp:2139-2180 | the loop appends the specified stacks and touches no other |
| `Money.Cylinder.Collect` | src/game/game.cpp:2065-2101 | the breadth-first search finds every coin stack at any depth once, in ascending worth, and its sum is the worth held |
| `Money.Cylinder.RemoveMoney` | src/game/game.cpp:2057-2137 | succeeds if and only if coins at any depth and the usable balance cover the price; then wealth falls by exactly the price with at most one stack split and the bank is used only if the coins do not suffice; otherwise nothing changes |
| `Money.Splitting` | src/game/game.cpp:2119-2125 | splitting a stack and giving change pays exactly the rest |
| `Market.GetMarketItemList` | src/game/game.cpp:8252-8291 | for every amount of an offer, the search ends, its 16-bit counter does not wrap, and it returns nothing exactly if there are no wares or fewer than the amount; otherwise distinct eligible items that reach it, and not without the last one found; for an amount of zero, which is left when the stash covers an offer, a single ware |
| `Market.TakenExact` | src/game/game.cpp:7442-7451 | the removal loop takes exactly the amount from a list that reaches it and never more than an item has |
| `Market.TakeOffered` | src/game/game.cpp:7433-7452 | choosing and removing take exactly the amount from wares of the depot, or nothing; only for an amount of zero one item is taken of wares that do not stack, which a stash does not hold |
| `Market.RemoveListed` | src/game/game.cpp:7442-7451 | stacks are reduced by what is still missing, other items removed whole |
| `Experience.SharesBounded` | src/creatures/creature.cpp:632-664 | the shares sum to at most the lost experience, and to more than it less one for each attacker if all attackers are known and none is the victim |
| `Experience.Creature.AddDamagePoints` | src/creatures/creature.cpp:1015-1035 | positive damage is added to its attacker and to no other |
| `Experience.Creature.GetGainedExperience` | src/creatures/creature.cpp:990-1013 | the floor of the exact damage ratio times the lost experience |
| `Experience.Creature.OnDeath` | src/creatures/creature.cpp:632-668 | every recipient gets the sum of the shares merged into it, and all together no more than was lost |
| `Premium.ExpiryKept` | src/game/game.cpp:6703-6738 | no update moves the moment at which the premium ends, and it ends exactly then |
| `Premium.PathIndependent` | src/game/game.cpp:6703-6738 | any nondecreasing sequence of updates leaves what a single update at its last time leaves |
| `Premium.ExpiryKeptIff` | src/game/game.cpp:6703-6738 | for every clock, an update keeps the end of the premium, or clears one that has ended, if and only if the days are not negative and still look enough in 32 bits, or are negative and look like none |
| `Premium.ClockBehind` | src/game/game.cpp:6716-6721 | as long as 32 bits count the days, it does if and only if the clock is less than a day behind |
| `Premium.MovedExpiry` | src/game/game.cpp:6716-6727 | otherwise the premium is gone or its end moves 2^32 days into the past |
| `Premium.Account.UpdatePremium` | src/game/game.cpp:6703-6738 | performs that update on the account |

## Left out

- SQL, batching, transactions and failures of the database: rows are values and every row is written.
- Network sends, spectators, effects, texts and descriptions.
- Scripts and events, except as arbitrary operations inside a creature sweep, as the answer of the event that may refuse a trade, and as closings of trades while items move.
- Item type remapping when an item is created: a type recreates to itself.
- Inventory.LoadItems: keeps the attributes of a row with its item unread; InventoryItems.LoadRecord reads them for one row.
- InventoryItems: of an item with a custom attribute without a value only that it is kept, not which of its attributes were read.
- Inventory: reward chests, the marks of open containers, the failure of a single row, and row ids beyond 32 bits.
- OtbLoader.Loader.ParseTree: an open node is kept on the stack by value and added to its parent when it is closed, where the source keeps pointers into the tree.
- AttributeStore: a kind is named by its bit position and the 32-bit word is a sequence of 32 booleans; the reference that getAttr returns is written at once (PutAttr); values do not exceed 64 bits, whose overflow has no defined result.
- ItemCodec: classes with attributes of their own (doors, beds, teleports, depot lockers); the registry of unique ids is an input that reading does not change; the straight sequence of blocks in serializeAttr is a loop over the kinds in their order, and the order in which a hash map yields its keys is a parameter; the eight bytes of a floating-point value are not interpreted, and a null store is an empty one.
- HouseCodec: stationary items (doors, beds, blackboards) are matched against the map and not created, and the loop of saveTile over a tile is not modelled.
- TileThings: items are values with an identity, so that a change through another pointer to the same item is not seen; floor-change flags, browse fields, references and notifications; the attributes that a change of type resets, and the fluid and the charges that it may set.
- StackMove: stackable items whose number is a fluid; exchanges, destinations on other floors, containers and players as cylinders, and the answers of queryAdd and equals, which are inputs; floor-change tiles, trash holders, teleports and mailboxes react in notifications.
- CreatureLifetime: summons, masters, walking and conditions; the references of all other owners are one number.
- Trade: players are values in a table keyed by id; the distance checks before a request, and where the items go when they move; a request for a trade with oneself is refused here by the check of playerRequestTrade, which other callers of internalStartTrade have to make.
- Money: where added coins are put and whether they merge with a stack there; items that may not be removed; sums and balances do not wrap at 64 bits.
- Market: the stash of the player, and which offer an item belongs to.
- Experience: ratios are exact rationals instead of floating point, damage does not overflow, and what a killed player yields.
- Premium: failures to save the account; times before 1970.
- Light cycle, game states, configuration, web and XML loaders: thin wrappers or easy members.
