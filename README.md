# jsimpledb core pieces in Dafny

This project models seven small, self-contained parts of the JSimpleDB Java database and proves what each promises:

- **AbstractIterationSet**: a Set whose size is known only by iterating. `size`, `isEmpty`, the lockstep `equals` walk and the two `toArray` methods. The set is the sequence one iteration produces.
- **ObjIdParser**: parsing of object IDs typed on the command line.
  - A full 16-hex-digit ID is returned.
  - A partial ID at the end of the input is padded with `'0'` and with `'f'` to get an inclusive range.
  - The completion finder gathers the objects in that range from the types whose storage ID lies within the bounds, unions them in ID order, and keeps at most 100.
  - The character buffer and the finder's `completions` field are updated in place, as in the source.
- **IntegerType**: the `int` primitive type. It narrows `long` to `int` with Java's two's-complement cast, and coerces `Character`, `Byte` and `Short`.
- **TypeContainer**: the tree of model classes below a root type.
  - `reload` collects the nodes, sorts them by name and picks each node's parent.
  - It then derives the child lists and the root list.
  - The container is a class with the node sequence, a parent array, a child-list array and the root list.
  - The hierarchical queries answer from that state; the mutators are refused.
- **ChangeCopier**: rebuilding any of the fourteen kinds of database change with its object references replaced by copies in a destination transaction. Every other field is kept.
- **AbstractTransactionRaftCommand**: finding the Raft key/value transaction behind a session's transaction, possibly wrapped in a fallback transaction, and the fixed consistency option.
- **JSimpleDBFactory**: the factory's setters, and how `newJSimpleDB` resolves the defaults: an in-memory database, and version 0 becomes 1.

Each Java file has its own module. `Wrappers` holds `Option`/`Result`, used for Java's `null` and exceptions. `ObjIds` holds the hexadecimal form of object IDs.

The following are parameters of the model rather than code:
- Java classes and `isAssignableFrom`;
- the validity rule and storage-ID encoding of object IDs;
- `JObject.exists`, `JTransaction.get` and `JObject.copyTo`;
- the superclass's `validate`;
- the subclass's `run`.

## Model

| member | source | states |
|---|---|---|
| AbstractIterationSet.Size | jsimpledb-util/src/main/java/org/jsimpledb/util/AbstractIterationSet.java:42-44 | the count is the number of elements one iteration produces |
| AbstractIterationSet.SizeIsCardinality | jsimpledb-util/src/main/java/org/jsimpledb/util/AbstractIterationSet.java:42-44 | for an iteration without repeats, the count is the cardinality of the set of elements |
| AbstractIterationSet.IsEmpty | jsimpledb-util/src/main/java/org/jsimpledb/util/AbstractIterationSet.java:81-83 | empty exactly when the size is 0, and exactly when the set of elements is empty |
| AbstractIterationSet.Equals | jsimpledb-util/src/main/java/org/jsimpledb/util/AbstractIterationSet.java:50-69 | true for this object; false for a non-Set; for a Set, true exactly when both iterations have the same length and every element of the other is contained in this one (so false once one iterator runs out first) |
| AbstractIterationSet.EqualsTestIsSetEquality | jsimpledb-util/src/main/java/org/jsimpledb/util/AbstractIterationSet.java:58-68 | for two Sets, the lockstep test holds exactly when both have the same elements |
| AbstractIterationSet.ToArray | jsimpledb-util/src/main/java/org/jsimpledb/util/AbstractIterationSet.java:89-94 | a new array holding exactly the iterated elements in iteration order, of length `size()` |
| AbstractIterationSet.ToArrayInto | jsimpledb-util/src/main/java/org/jsimpledb/util/AbstractIterationSet.java:100-105 | the same elements in the same order; stored into the given array when it fits, with null just after them when there is room and the rest untouched; otherwise a new array of exactly the right length, with the given array unchanged |
| IntegerType.DownCast | jsimpledb-coreapi/src/main/java/org/jsimpledb/core/IntegerType.java:22-24 | the result is an `int` congruent to the `long` modulo 2^32, and equal to it when it is already in `int` range |
| IntegerType.DownCastUnique | jsimpledb-coreapi/src/main/java/org/jsimpledb/core/IntegerType.java:22-24 | any `int` congruent to the `long` modulo 2^32 is the cast's result |
| IntegerType.Validate | jsimpledb-coreapi/src/main/java/org/jsimpledb/core/IntegerType.java:27-33 | a Character gives its code unit (0..65535), a Byte or Short its own value, anything else is what the superclass's rule gives |
| ObjIds.ParseObjId | jsimpledb-parse/src/main/java/org/jsimpledb/parse/ObjIdParser.java:42 | a string is accepted as an object ID exactly when it is 16 hex digits the validity rule accepts; the ID's value is the digits' value, below 16^16 |
| ObjIds.IdStringSpec | jsimpledb-parse/src/main/java/org/jsimpledb/parse/ObjIdParser.java:123 | the string form is 16 hex digits whose value is the ID's value |
| ObjIds.HexValueOfToHex | jsimpledb-parse/src/main/java/org/jsimpledb/parse/ObjIdParser.java:123 | reading back the digits written for a value gives the value |
| ObjIds.HexValueMonotone | jsimpledb-parse/src/main/java/org/jsimpledb/parse/ObjIdParser.java:49-65 | raising digits position by position never lowers the value |
| ObjIdParser.TokenLength | jsimpledb-parse/src/main/java/org/jsimpledb/parse/ObjIdParser.java:35 | the pattern `[0-9A-Fa-f]{0,16}` takes at most 16 characters, all hex digits, and stops only at the 16th, at the end of the input, or before a non-hex character |
| ObjIdParser.Pad | jsimpledb-parse/src/main/java/org/jsimpledb/parse/ObjIdParser.java:49-53 | the padded string has 16 characters, starts with the token and holds the fill character after it |
| ObjIdParser.Filter | jsimpledb-parse/src/main/java/org/jsimpledb/parse/ObjIdParser.java:105-112 | the restricted set holds exactly the IDs of the set that meet the bound |
| ObjIdParser.Limit | jsimpledb-parse/src/main/java/org/jsimpledb/parse/ObjIdParser.java:122 | the limited iteration is a prefix of at most `n` elements, the whole sequence when it is no longer |
| ObjIdParser.CompletionFinder.constructor | jsimpledb-parse/src/main/java/org/jsimpledb/parse/ObjIdParser.java:82-89 | the finder keeps its bounds and starts with no completions |
| ObjIdParser.CompletionFinder.GatherIdSets | jsimpledb-parse/src/main/java/org/jsimpledb/parse/ObjIdParser.java:94-119 | the nested loops gather one ID set per object type kept by the storage-ID bounds, in schema and type order |
| ObjIdParser.CompletionFinder.GatherSchema | jsimpledb-parse/src/main/java/org/jsimpledb/parse/ObjIdParser.java:97-118 | the inner loop appends one ID set per object type of the schema kept by the storage-ID bounds, in type order |
| ObjIdParser.CompletionFinder.AddCompletions | jsimpledb-parse/src/main/java/org/jsimpledb/parse/ObjIdParser.java:122-123 | appends the string form of each ID, in order, to the completions |
| ObjIdParser.CompletionFinder.Run | jsimpledb-parse/src/main/java/org/jsimpledb/parse/ObjIdParser.java:92-125 | whatever the list held before, afterwards it is the string forms of the first 100 IDs of the union of the gathered sets |
| ObjIdParser.TypeIdSetSpec | jsimpledb-parse/src/main/java/org/jsimpledb/parse/ObjIdParser.java:102-116 | the set gathered for a type holds exactly its objects within the bounds that exist, in ascending order |
| ObjIdParser.LimitAscending | jsimpledb-parse/src/main/java/org/jsimpledb/parse/ObjIdParser.java:122 | the first `n` IDs of an ascending sequence are ascending, taken from it, and an ID of it is left out only when `n` smaller ones are kept |
| ObjIdParser.TailSet | jsimpledb-parse/src/main/java/org/jsimpledb/parse/ObjIdParser.java:105 | `tailSet(min, true)` holds exactly the IDs of the set from `min` up, and keeps an ascending set ascending |
| ObjIdParser.HeadSet | jsimpledb-parse/src/main/java/org/jsimpledb/parse/ObjIdParser.java:112 | `headSet(max, true)` holds exactly the IDs of the set up to `max`, and keeps an ascending set ascending |
| ObjIdParser.Merge | jsimpledb-parse/src/main/java/org/jsimpledb/parse/ObjIdParser.java:122 | the union of two ID sequences holds exactly the IDs found in either |
| ObjIdParser.MergeSpec | jsimpledb-parse/src/main/java/org/jsimpledb/parse/ObjIdParser.java:122 | the union of two ascending ID sequences is ascending, so with `Merge` an ascending set of exactly the IDs of both |
| ObjIdParser.UnionAll | jsimpledb-parse/src/main/java/org/jsimpledb/parse/ObjIdParser.java:122 | the union of all the sets holds exactly the IDs found in some set |
| ObjIdParser.UnionAllSpec | jsimpledb-parse/src/main/java/org/jsimpledb/parse/ObjIdParser.java:122 | the union of ascending sets is ascending |
| ObjIdParser.TypeIdSetsSpec | jsimpledb-parse/src/main/java/org/jsimpledb/parse/ObjIdParser.java:97-117 | the sets gathered for one schema are ascending and together hold exactly the in-bounds objects of its kept types |
| ObjIdParser.IdSetsSpec | jsimpledb-parse/src/main/java/org/jsimpledb/parse/ObjIdParser.java:96-119 | the sets gathered over all schemas are ascending and together hold exactly the in-bounds objects of kept types |
| ObjIdParser.CompletionIdsSpec | jsimpledb-parse/src/main/java/org/jsimpledb/parse/ObjIdParser.java:99-123 | at most 100 IDs, ascending; each is an object of a type whose storage ID is within the bounds' storage IDs and lies within [min, max]; such an object is missing only when 100 smaller ones are offered |
| ObjIdParser.CompletionsSpec | jsimpledb-parse/src/main/java/org/jsimpledb/parse/ObjIdParser.java:120-124 | at most 100 completions, each the string form of such an object |
| ObjIdParser.ArrayCopy | jsimpledb-parse/src/main/java/org/jsimpledb/parse/ObjIdParser.java:51 | the token's characters are copied to the front of the buffer and the rest is untouched |
| ObjIdParser.Fill | jsimpledb-parse/src/main/java/org/jsimpledb/parse/ObjIdParser.java:52-62 | the buffer from the given position on holds the fill character and the front is untouched |
| ObjIdParser.Parse | jsimpledb-parse/src/main/java/org/jsimpledb/parse/ObjIdParser.java:32-78 | the method, filling the character buffer in place and running the finder, gives exactly the parse result the value-level rule describes |
| ObjIdParser.PaddingEnclosesPrefixed | jsimpledb-parse/src/main/java/org/jsimpledb/parse/ObjIdParser.java:49-62 | the '0'-padded bound is at most the 'f'-padded one character by character, and every 16-digit string with the token as prefix lies between their values |
| ObjIdParser.ParseFullId | jsimpledb-parse/src/main/java/org/jsimpledb/parse/ObjIdParser.java:41-42 | a valid full ID is returned at once, with the rest of the input left over |
| ObjIdParser.ParsePartialNeverReturns | jsimpledb-parse/src/main/java/org/jsimpledb/parse/ObjIdParser.java:43-77 | a token that is not a valid ID never yields an ID: parse ends with "invalid object ID" |
| ObjIdParser.ParsePartialNeedsEnd | jsimpledb-parse/src/main/java/org/jsimpledb/parse/ObjIdParser.java:43-46 | a partial token not at the end of the input, or with no completion asked for, is an error without completions |
| ObjIdParser.ParseRejectsNonHex | jsimpledb-parse/src/main/java/org/jsimpledb/parse/ObjIdParser.java:35-46 | input in which a non-hex character comes before a 16th digit is refused with "invalid object ID" |
| ObjIdParser.ParsePartialCompletes | jsimpledb-parse/src/main/java/org/jsimpledb/parse/ObjIdParser.java:49-77 | at the end of the input: an invalid lower bound is an error unless it starts with "00" (no lower bound then); an invalid upper bound means none; otherwise the error carries the completions between the bounds, and min is at most max |
| TypeContainer.StrLeTotal | jsimpledb-vaadin/src/main/java/org/jsimpledb/vaadin/TypeContainer.java:112 | any two names are ordered one way or the other |
| TypeContainer.StrLeTransitive | jsimpledb-vaadin/src/main/java/org/jsimpledb/vaadin/TypeContainer.java:112 | the name order is transitive |
| TypeContainer.InsertSpec | jsimpledb-vaadin/src/main/java/org/jsimpledb/vaadin/TypeContainer.java:109-114 | inserting into a list sorted by name keeps it sorted and adds exactly that node |
| TypeContainer.SortByNameSpec | jsimpledb-vaadin/src/main/java/org/jsimpledb/vaadin/TypeContainer.java:109-114 | sorting gives a list sorted by name that is a permutation of the nodes |
| TypeContainer.ClassNodes | jsimpledb-vaadin/src/main/java/org/jsimpledb/vaadin/TypeContainer.java:96-102 | there is a node for every model class that is a subtype of the root type, and for no other class |
| TypeContainer.CollectClassNodes | jsimpledb-vaadin/src/main/java/org/jsimpledb/vaadin/TypeContainer.java:95-102 | the loop builds those nodes and records whether one has exactly the root type |
| TypeContainer.CollectNodesUnderRoot | jsimpledb-vaadin/src/main/java/org/jsimpledb/vaadin/TypeContainer.java:95-106 | every collected node's type is (a subtype of) the root type, and a node with exactly the root type is present |
| TypeContainer.LoadedNodesUnderRoot | jsimpledb-vaadin/src/main/java/org/jsimpledb/vaadin/TypeContainer.java:95-114 | the same holds after sorting |
| TypeContainer.ParentAfter | jsimpledb-vaadin/src/main/java/org/jsimpledb/vaadin/TypeContainer.java:117-128 | a node is never its own parent, and its parent's type is a supertype of its own |
| TypeContainer.ParentNoneIff | jsimpledb-vaadin/src/main/java/org/jsimpledb/vaadin/TypeContainer.java:117-128 | a node has no parent exactly when no other node's type is a supertype of its type |
| TypeContainer.NoLaterCandidateBelowParent | jsimpledb-vaadin/src/main/java/org/jsimpledb/vaadin/TypeContainer.java:124-126 | no supertype met after the chosen parent is a proper refinement of it in the loop's sense (a subtype of the parent) |
| TypeContainer.ParentIsMostSpecific | jsimpledb-vaadin/src/main/java/org/jsimpledb/vaadin/TypeContainer.java:124-126 | when the supertypes form a chain under a reflexive, transitive relation, the chosen parent is a subtype of every other supertype: the nearest one wins |
| TypeContainer.ComputeParents | jsimpledb-vaadin/src/main/java/org/jsimpledb/vaadin/TypeContainer.java:117-129 | the nested loops set every node's parent to the one the comparison rule chooses |
| TypeContainer.SelectSpec | jsimpledb-vaadin/src/main/java/org/jsimpledb/vaadin/TypeContainer.java:132-144 | a derived list holds exactly the positions with the given parent, in increasing order |
| TypeContainer.ComputeChildren | jsimpledb-vaadin/src/main/java/org/jsimpledb/vaadin/TypeContainer.java:132-137 | each node's child list is the list of nodes whose parent it is |
| TypeContainer.ComputeRoots | jsimpledb-vaadin/src/main/java/org/jsimpledb/vaadin/TypeContainer.java:140-144 | the root list is the list of nodes without a parent |
| TypeContainer.TypeContainer.constructor | jsimpledb-vaadin/src/main/java/org/jsimpledb/vaadin/TypeContainer.java:60-72 | a container with the given root type and classes and no nodes yet, in a consistent state |
| TypeContainer.TypeContainer.Reload | jsimpledb-vaadin/src/main/java/org/jsimpledb/vaadin/TypeContainer.java:89-148 | the loaded nodes are the collected nodes sorted by name (a sorted permutation); parents, child lists and root list are the derived ones |
| TypeContainer.Node.Type | jsimpledb-vaadin/src/main/java/org/jsimpledb/vaadin/TypeContainer.java:181-183 | a node's type is its model class's Java type for a class node, and the bare Java type for the root node made without a class |
| TypeContainer.Node.PropertyName | jsimpledb-vaadin/src/main/java/org/jsimpledb/vaadin/TypeContainer.java:196-199 | a node's name, the sort key, is its model class's name when it has one, and otherwise the Java type's simple name |
| TypeContainer.TypeContainer.Lookup | jsimpledb-vaadin/src/main/java/org/jsimpledb/vaadin/TypeContainer.java:80-83 | the container is keyed by node type: a found position holds a node of that type, and not finding one means no loaded node has that type |
| TypeContainer.TypeContainer.GetChildren | jsimpledb-vaadin/src/main/java/org/jsimpledb/vaadin/TypeContainer.java:214-218 | empty for an unknown type; otherwise exactly the types of the nodes whose parent is that type's node |
| TypeContainer.TypeContainer.GetParent | jsimpledb-vaadin/src/main/java/org/jsimpledb/vaadin/TypeContainer.java:220-229 | none for an unknown type; none exactly when no other node is a supertype; otherwise another node's type that is a supertype |
| TypeContainer.TypeContainer.RootListSpec | jsimpledb-vaadin/src/main/java/org/jsimpledb/vaadin/TypeContainer.java:139-144 | the root list holds exactly the nodes of which no other node is a supertype |
| TypeContainer.TypeContainer.RootItemIds | jsimpledb-vaadin/src/main/java/org/jsimpledb/vaadin/TypeContainer.java:231-234 | exactly the types of the nodes of which no other node is a supertype |
| TypeContainer.TypeContainer.IsRoot | jsimpledb-vaadin/src/main/java/org/jsimpledb/vaadin/TypeContainer.java:242-246 | false for an unknown type; otherwise true exactly when the node is in the root list, that is, when no other node is a supertype |
| TypeContainer.TypeContainer.HasChildren | jsimpledb-vaadin/src/main/java/org/jsimpledb/vaadin/TypeContainer.java:248-252 | true exactly when the type is known and some node has it as parent, that is, its child list is not empty |
| TypeContainer.TypeContainer.AreChildrenAllowed | jsimpledb-vaadin/src/main/java/org/jsimpledb/vaadin/TypeContainer.java:236-240 | the same as `hasChildren`: the type is known and some node has it as parent |
| TypeContainer.TypeContainer.ListsInNameOrder | jsimpledb-vaadin/src/main/java/org/jsimpledb/vaadin/TypeContainer.java:132-144 | when the nodes are sorted by name, each child list and the root list are in name order |
| TypeContainer.TypeContainer.SetParent | jsimpledb-vaadin/src/main/java/org/jsimpledb/vaadin/TypeContainer.java:256-259 | always refused with UnsupportedOperationException |
| TypeContainer.TypeContainer.SetChildrenAllowed | jsimpledb-vaadin/src/main/java/org/jsimpledb/vaadin/TypeContainer.java:261-264 | always refused with UnsupportedOperationException |
| TypeContainer.TypeContainer.RemoveItem | jsimpledb-vaadin/src/main/java/org/jsimpledb/vaadin/TypeContainer.java:266-269 | always refused with UnsupportedOperationException |
| ChangeCopier.NewCopier | jsimpledb-main/src/main/java/org/jsimpledb/change/ChangeCopier.java:24-36 | a null destination is refused with "null dest"; otherwise a copier for that destination with a new copy state |
| ChangeCopier.DestinationTransaction | jsimpledb-main/src/main/java/org/jsimpledb/change/ChangeCopier.java:60-62 | the configured destination |
| ChangeCopier.GetCopyState | jsimpledb-main/src/main/java/org/jsimpledb/change/ChangeCopier.java:69-71 | the copier's one copy state |
| ChangeCopier.CopyObject | jsimpledb-main/src/main/java/org/jsimpledb/change/ChangeCopier.java:174 | for a non-null object: an existing one is copied into the destination with the copier's copy state; one that does not exist is only looked up there |
| ChangeCopier.Copy | jsimpledb-main/src/main/java/org/jsimpledb/change/ChangeCopier.java:172-175 | null is refused with "null jobj"; an object that does not exist is looked up in the destination; an existing one is copied there with the copier's copy state |
| ChangeCopier.CopyIfReference | jsimpledb-main/src/main/java/org/jsimpledb/change/ChangeCopier.java:153-156 | values other than objects (null included) are kept; an object is replaced by what `copy` returns for it |
| ChangeCopier.CopyChange | jsimpledb-main/src/main/java/org/jsimpledb/change/ChangeCopier.java:74-151 | the copied change has the same kind, storage ID, field name and list index, and each value slot (old value in the old slot, new in the new) holds the original slot's value through `copyIfReference` |
| ChangeCopier.AssembleInvertsTakingApart | jsimpledb-main/src/main/java/org/jsimpledb/change/ChangeCopier.java:74-151 | a change is exactly its kind and fields together with its value slots |
| ChangeCopier.CopyChangeIsAssembled | jsimpledb-main/src/main/java/org/jsimpledb/change/ChangeCopier.java:74-151 | the copy is the original's shape filled with the copied values, for every kind |
| ChangeCopier.CopyChangeWithoutReferences | jsimpledb-main/src/main/java/org/jsimpledb/change/ChangeCopier.java:74-156 | a change that refers to no object is copied unchanged |
| ChangeCopier.CopiedReferencesComeFromCopy | jsimpledb-main/src/main/java/org/jsimpledb/change/ChangeCopier.java:153-175 | every object the copy refers to is what `copy` made from the object in the same slot of the original |
| AbstractTransactionRaftCommand.UnwrapRaft | jsimpledb-kv-raft/src/main/java/org/jsimpledb/kv/raft/cmd/AbstractTransactionRaftCommand.java:30-41 | a Raft transaction is used directly; a fallback one wrapping Raft is unwrapped; a fallback wrapping anything else fails with the standalone-mode error; anything else fails with the not-Raft error |
| AbstractTransactionRaftCommand.RunAction | jsimpledb-kv-raft/src/main/java/org/jsimpledb/kv/raft/cmd/AbstractTransactionRaftCommand.java:29-43 | the inner `run` is invoked, with the Raft transaction found, only when unwrapping succeeds; otherwise the unwrapping error is the outcome |
| AbstractTransactionRaftCommand.RunReachesBodyExactlyForRaft | jsimpledb-kv-raft/src/main/java/org/jsimpledb/kv/raft/cmd/AbstractTransactionRaftCommand.java:32-42 | unwrapping succeeds exactly for a Raft transaction or a fallback currently wrapping one; in every other case the action fails |
| AbstractTransactionRaftCommand.DefaultConsistency | jsimpledb-kv-raft/src/main/java/org/jsimpledb/kv/raft/cmd/AbstractTransactionRaftCommand.java:50-52 | the default consistency is linearizable |
| AbstractTransactionRaftCommand.TransactionOptions | jsimpledb-kv-raft/src/main/java/org/jsimpledb/kv/raft/cmd/AbstractTransactionRaftCommand.java:46-48 | exactly one option, keyed by the consistency option name, whose value is the consistency |
| JSimpleDBFactory.Resolve | src/java/org/jsimpledb/JSimpleDBFactory.java:100-107 | a configured database and its version are passed unchanged (version 0 included); without one, a new in-memory database is used and version 0 becomes 1 while any other version is kept; generator and classes pass unchanged |
| JSimpleDBFactory.ResolvedVersion | src/java/org/jsimpledb/JSimpleDBFactory.java:102-106 | the version changes exactly when no database is configured and the version is 0; without a database the version is never 0 |
| JSimpleDBFactory.Factory.constructor | src/java/org/jsimpledb/JSimpleDBFactory.java:25-28 | a new factory has no database, version 0, the default storage ID generator and no classes |
| JSimpleDBFactory.Factory.SetModelClasses | src/java/org/jsimpledb/JSimpleDBFactory.java:40-43 | sets the classes only, and returns the same factory |
| JSimpleDBFactory.Factory.SetDatabase | src/java/org/jsimpledb/JSimpleDBFactory.java:54-57 | sets the database only, and returns the same factory |
| JSimpleDBFactory.Factory.SetSchemaVersion | src/java/org/jsimpledb/JSimpleDBFactory.java:71-74 | sets the version only, and returns the same factory |
| JSimpleDBFactory.Factory.SetStorageIdGenerator | src/java/org/jsimpledb/JSimpleDBFactory.java:86-91 | sets the generator only (null accepted, disabling generation), and returns the same factory |
| JSimpleDBFactory.Factory.NewJSimpleDB | src/java/org/jsimpledb/JSimpleDBFactory.java:99-108 | works on locals: changes nothing in the factory, and the result is the resolution of its configuration, so repeated calls return equal records |
| JSimpleDBFactory.DefaultConfiguration | src/java/org/jsimpledb/JSimpleDBFactory.java:99-108 | a usage example of the constructor and `newJSimpleDB`: a new factory with version 0 gives a new in-memory database at version 1 with the default generator |

## Left out

- The `matcher == null` branch of `parse` is not modelled as code. The pattern `[0-9A-Fa-f]{0,16}` also matches the empty string, so the match at the start of the input never fails. Input that does not begin with hex digits reaches the later "invalid object ID" errors instead (`ParseRejectsNonHex`).
- Parse: the error carries the finder's completion list itself. `ParseUtil.complete`, which rewrites that list against the typed prefix, is not part of this model.
- `ParseContext` is not modelled: its position, its `isEOF` and the regex engine. The input is the rest of the context as a string; the end of input is "nothing left after the token".
- The `ObjId` class is not part of this model.
  - Its validity rule for 16-digit strings is the parameter `IdRules.valid`.
  - Its storage-ID encoding is the parameter `IdRules.storageIdOf`.
  - IDs compare by their 64-bit value.
- TailSet, HeadSet: the `IllegalArgumentException` that a range-restricted navigable set throws for a bound outside its range is not modelled. The sets returned by `getAll` are plain ascending sequences, and the filters never fail.
- `NavigableSets.union` is modelled by its result: the ascending, duplicate-free merge of the sets. Its lazy implementation is not part of this model.
- The session (`performParseSessionAction`, transaction retry) is not modelled; the finder runs once in the given transaction.
- Size: Guava's `Iterators.size` saturates at `Integer.MAX_VALUE`; the count here is unbounded.
- `AbstractIterationSet.hashCode` only delegates to `AbstractSet`. Iterators are modelled by the finite sequence one iteration produces, so concurrent modification is not covered.
- ToArrayInto: the runtime element type of Java arrays, and so `ArrayStoreException`, is not modelled; null is `None`. The argument is a non-null array, so the `NullPointerException` of `toArray(null)` is not modelled.
- Validate: `IntegralType.validate` is not part of this model. It is the parameter `superValidate`.
- The `TypeContainer` constructor takes the root type as given. `Util.findLowestCommonAncestorOfClasses` is not part of this model.
- The Vaadin container machinery is not part of this model: `SimpleKeyedContainer.load`, the item property accessors, `SizedLabel`, and the lazy `Lists.transform` views.
  - `getJavaObject` is modelled as the first loaded node of the given type.
  - The queries return the lists' values rather than live views.
- TypeContainer: Java reflection is reduced to the abstract relation `isAssignableFrom`. `ParentIsMostSpecific` assumes that the supertypes of a node form a chain under a reflexive, transitive relation; interfaces can break that, and then only `NoLaterCandidateBelowParent` applies.
- SortByName: names are compared character by character, which matches `String.compareTo` on UTF-16 code units only for characters of the Basic Multilingual Plane. The sort is a stable insertion sort, like `Collections.sort`, but stability is not stated as a lemma.
- ChangeCopier: whether an object exists, `JTransaction.get` and `JObject.copyTo` are parameters. The updates `copyTo` makes to the copy state are not modelled; the copy state is passed in as a value.
- The no-argument `ChangeCopier` constructor is not modelled; it depends on the thread-bound `JTransaction.getCurrent()`. Subclasses that override `copy` are not modelled either.
- The Raft key/value database, the CLI session and the consensus machinery are not part of this model. The option name `RaftKVDatabase.OPTION_CONSISTENCY` is taken to be `"consistency"`, since `RaftKVDatabase` is not part of this model.
- NewJSimpleDB: each call made without a configured database builds its own new `Database(new SimpleKVDatabase())`. The model writes that database as the single value `NewInMemoryDatabase`, so two such results are equal here while in Java they hold distinct databases. Object identity is not modelled.
- Constructing the `JSimpleDB`, `Database` and `SimpleKVDatabase` objects (annotation scanning, schema building, the configuration errors these raise) is not part of this model. The result is the record of the resolved arguments.
