# A verified model of the xivix kernel's state machines

xivix is a small 32-bit x86 kernel. Most of what it does talks to hardware, but its hard logic sits in a few
state machines that can be stated without any: the page allocators and page tables, the reader of ACPI byte
code, the keyboard decoder, the DHCP client with its options and checksums, the rings and packet pool of the
network driver, and the task scheduler. This project models them in Dafny, branch by branch, and proves what
they keep over every run.

How the modules fit together:

- `Extents`, `Allocation`, `Trie`, `PageAllocators` (kernel/memory.cpp): the 127-slot extent table as a map from
  addresses to classes, the allocator on it, the 128-node trie beside it, and the class that changes them in place.
- `Paging`, `Requests`, `MemoryManagers` (kernel/memory.cpp): page tables with their shadow index, `vmm_request`
  over two allocators, and both in place. `RequestOutcomes`, `RequestRuns`, `RequestFaults`, `RequestStart`: what one
  request does, succeed or fail, what runs of them keep, where they go wrong, and a state to start from.
- `AmlNames`, `AmlBytes`, `AmlGrammar`, `AmlPaths`, `AmlPrograms`, `AmlEffects`, `AmlReaders` (kernel/aml.cpp): the
  namespace; names and package lengths as bytes; the byte code the reader accepts, production by production; names and
  programs and the bytes they are written as; what reading does to the namespace; and the backtracking reader itself,
  proved to end where the grammar says and to leave the namespace as `AmlEffects` says, for every byte string.
- `AmlTermNames`, `AmlDeclarations`, `AmlMisplaced` (kernel/aml.cpp): what that comes to for a written program: every
  object is declared inside the object around it, and nothing else is; and which names are not.
- `Keyboards` (kernel/dev/keyboard.cpp); `Arp`, `Checksums`, `DhcpOptions`, `DhcpMessages`, `DhcpClients`, `DhcpRuns`
  (kernel/net/queue.cpp): the last is about whole runs of the client, where its offers and its lease come from.
- `NicModel`, `NicDriver` (kernel/dev/e1000.cpp, kernel/ktypes.hpp): rings, packets and reference counts, as
  functions and in place; the card's own steps come in any order between the driver's.
- `Schedulers` (kernel/scheduler.cpp): the core, the tasks and interrupts as one transition system, and in place.

Code that changes state step by step is a class or a method with loops, proved equal to a specification function;
what the kernel promises is then proved of that function. Widths and wrap-around are written out (`Wrap32`, `Wrap`,
`Add32`).

Starting states are well formed: extents disjoint and page-aligned, lengths below 2^20 pages, addresses below 2^32,
page tables outside the PRE pool. There is one extent table per allocator, one network card, and `net::init` is done.

## What the code does not meet

Where a property one would expect is false of the code, the model keeps the code, and a lemma gives the input or the
exact condition:

- A request for no bytes returns a page it does not own (`RequestFaults.ZeroSizeRequest`); a request owns what it
  returns exactly when it is for some memory (`RequestFaults.OwnedIffSized`).
- A page table may be taken from reserve pages that are not mapped yet. Exactly when that happens can be told before
  the request (`RequestFaults.SuppliedIffMapped`). It does when there is no reserve at all and the first new
  page lacks a page table: the directory is then given one in frame 0 (`RequestFaults.EmptyReserve`), and the eight
  pages added for this case do not help.
- A request that finds no virtual range does not stop: it maps pages from address 0 on
  (`RequestFaults.NoRangeMapsZero`). One that runs out of frames stops, but leaves its virtual range allocated and its
  frames taken (`RequestOutcomes.RequestOutcome`). If that happens while the reserve is growing, the reserve is left
  with pages that are not mapped; this does no harm, for no frame is ever freed (`RequestRuns.TranslationsLast`).
- `translate_page` gives 0 for an address that is not mapped, except under a page table, where it gives the offset in the
  page (`Paging.TranslateIsHwWalk`).
- `set_extent` loses pages when the slots it needs are not there: it is exact if and only if they are
  (`Extents.SetExtentRefines`), and so is `allocate` (`Allocation.AllocateSoundComplete`).
- `ipchksum` counts the last byte of an odd length twice and reads the byte behind it: it is right exactly when
  both are clear or both have all bits set (`Checksums.OddIsOnesComplement`). For even lengths it is always right.
- Leases of 0 and 1 seconds are never given up (`DhcpClients.GivenUpIff`). Without any answer the client sends seven
  DISCOVERs and shuts down for good (`DhcpRuns.NoServer`, `DhcpRuns.ShutDown`).
- The wake-up bitmap does not tell interrupt 0x80 and above from lower ones (`Schedulers.WakesWhoAsked`,
  `Schedulers.HighNumbersAlias`).
- `load_dsdt` stops at the first position that starts no object, however much is left, though it looks as if it meant
  to go on (`AmlGrammar.WholeTable`, `AmlGrammar.ConcatStops`).
- `name_string` refuses null names, names of two segments behind the dual prefix, and a count of zero
  (`AmlPaths.NameReadIff`). It reads past `^` but does not go up: names that differ in their carets alone mean the same
  (`AmlPaths.CaretsIgnored`), and an entry of the parent scope is missed (`AmlPaths.CaretMissesParent`).
- A Name of several segments is declared under another path if its value is a counted name, which the reader keeps over
  it (`AmlMisplaced.NameMisplaced`), and is then not found (`AmlMisplaced.MisplacedNotFound`). Of a name of more than 16
  segments only the last is declared, and in the scope itself (`AmlMisplaced.LongName`). All other names are declared
  where they say (`AmlDeclarations.ProgramInPlace`).
- Of a connect or extended access element of a field the reader takes only the first byte.
- A frame received while the receive ring is full costs the ring a packet (`NicModel.ReceiveGood`).

## Model

| member | source | states |
|---|---|---|
| `Extents.AddExtentPaints` | kernel/memory.cpp:310-333 | Adding pages no extent holds gives exactly those the new class, if a slot is unset or none is needed; otherwise nothing changes. |
| `Extents.SetAtStartPaints` | kernel/memory.cpp:529-567 | A request at the start of an extent, whether it merges, shrinks or consumes, repaints exactly its pages if and only if the slot it needs is unset. |
| `Extents.SetInsidePaints` | kernel/memory.cpp:568-574 | A request inside an extent splits it around exactly its pages, if and only if the slots for request and tail are unset. |
| `Extents.SplitLost` | kernel/memory.cpp:568-574 | With too few unset slots the split loses pages: its result is not the update asked for. |
| `Extents.SetExtentRefines` | kernel/memory.cpp:519-579 | `set_extent` refines the update of a map from addresses to classes and keeps the table well formed, exactly when the unset slots its branch needs are there. |
| `Allocation.AllocateSoundComplete` | kernel/memory.cpp:601-647 | `allocate` fails exactly when no FREE extent is long enough; a range it returns was wholly FREE, and becomes exactly the class asked for if and only if the slot that takes is unset. |
| `Allocation.AllocateFunded` | kernel/memory.cpp:601-647 | While unset slots cover the FREE extents that no page of the class precedes, an allocation is exact and leaves that so. |
| `Allocation.PotentialKept` | kernel/memory.cpp:519-579 | Slots used plus unpreceded FREE extents never grows when a class is taken from the start of a FREE extent. |
| `Allocation.RunsAreDisjoint` | kernel/memory.cpp:601-647 | Over a whole run of requests every page returned was FREE and is of the class, no page is returned twice, and no other page changes. |
| `Allocation.TableBound` | kernel/memory.cpp:601-647 | However many same-class requests are made, the slots used never exceed the initial ones plus the initial FREE extents. |
| `Trie.WalkIsLeafAddrs` | kernel/memory.cpp:649-734 | From the root `debug_trie` rebuilds exactly the addresses of the leaves of a labelled trie. |
| `Trie.LinksDecodeAlike` | kernel/memory.cpp:374-517 | A child's index is greater than its parent's, and the writer's and the reader's decoding of the link agree. |
| `Trie.ListsAreDistinct` | kernel/memory.cpp:374-517 | The nibbles in use in any list node are distinct. |
| `Trie.PathSpellsBase` | kernel/memory.cpp:374-517 | The digits of a page base, put back together at their levels, give that base. |
| `Trie.SpellingUnique` | kernel/memory.cpp:649-734 | No other path of digits that fit their nodes spells the same base. |
| `Trie.InsertExact` | kernel/memory.cpp:374-517 | Inserting a page base adds exactly it to what the reader finds, if and only if there is room. |
| `Trie.ReachableTries` | kernel/memory.cpp:374-517 | Over any run of insertions the trie stays well linked with distinct nibbles, the reader finds only what was inserted, loses nothing, and finds the last page exactly when it had room. |
| `PageAllocators.PageAllocator.NextEmptyExtent` | kernel/memory.cpp:294-307 | The loop finds the first unset slot. |
| `PageAllocators.PageAllocator.FindTypeExtent` | kernel/memory.cpp:336-345 | The loop finds the first extent of the class that is long enough. |
| `PageAllocators.PageAllocator.IntersectExtent` | kernel/memory.cpp:360-372 | The loop finds the first extent that holds the whole range. |
| `PageAllocators.PageAllocator.FindFreeExtent` | kernel/memory.cpp:348-358 | `ifree` moves to the first FREE extent that is long enough, or stays. |
| `PageAllocators.PageAllocator.AddExtent` | kernel/memory.cpp:310-333 | The table in place becomes what the specification of `add_extent` gives. |
| `PageAllocators.PageAllocator.SetTrieExtent` | kernel/memory.cpp:374-517 | The trie in place becomes what the specified walk makes of it. |
| `PageAllocators.PageAllocator.SetExtent` | kernel/memory.cpp:519-579 | Table and trie in place become what the specified update makes of them. |
| `PageAllocators.PageAllocator.AllocateRes` | kernel/memory.cpp:585-599 | Result and table in place are those specified for taking from the reserve. |
| `PageAllocators.PageAllocator.Allocate` | kernel/memory.cpp:601-647 | Result and table in place are those specified for `allocate`. |
| `Paging.TranslateIsHwWalk` | kernel/memory.cpp:899-913 | In every sound state `translate_page`, through the shadow index, agrees with the hardware walk on every address that is mapped; for others it gives 0, or under a page table the offset in the page. |
| `Paging.MapPageExact` | kernel/memory.cpp:948-998 | `map_page` gives its page the frame and flags asked for, leaves every other walk as it was, takes a page table from the reserve exactly when one is missing, and keeps tables, shadow index and reserve sound. |
| `Paging.MapPageTranslates` | kernel/memory.cpp:948-998 | Afterwards `translate_page` gives the frame for that page and its old answer for every other. |
| `Requests.PagesHold` | kernel/memory.cpp:1021-1022 | The pages allocated for a request hold its bytes, and one page fewer would not. |
| `Requests.CountSuffices` | kernel/memory.cpp:914-946 | Within one gigabyte `count_page_structs` counts at least the page tables a range lacks, and at most one more than the directory slots it touches. |
| `Requests.MapRunExact` | kernel/memory.cpp:1045-1067 | A run of the mapping loop gives its pages, or those it got to before the frames ran out, distinct fresh frames, changes no other translation, and takes exactly the page tables forecast, be they from pages that the same run has mapped. |
| `RequestOutcomes.RequestOutcome` | kernel/memory.cpp:1000-1077 | A request that found a virtual range, succeed or fail, leaves every page in use mapped as it was; its bytes were FREE and are allocated, whether mapped or not, and beyond the pages they begin in only page tables are. |
| `RequestOutcomes.RequestServed` | kernel/memory.cpp:1000-1077 | A successful request for `sz` bytes returns `sz` bytes that were FREE and are allocated, every one mapped with the rights asked for and to a frame that was FREE, one frame for each page; no page beyond them is taken but for page tables, and every page in use is mapped as it was. |
| `RequestOutcomes.ReserveSized` | kernel/memory.cpp:1030-1039 | Eight more reserve pages are asked for exactly if no page is in reserve. |
| `RequestFaults.ZeroSizeRequest` | kernel/memory.cpp:1018-1067 | A request for no bytes that needs no page table maps and returns a page that stays FREE and is handed out again next. |
| `RequestFaults.OwnedIffSized` | kernel/memory.cpp:1000-1077 | What a supplied request returns is allocated to it, and no page table, if and only if the request is for some memory. |
| `RequestFaults.FedIffMapped` | kernel/memory.cpp:1045-1067 | Told from extent table and directory before a run of the mapping loop: every page table is mapped when it is taken if and only if the forecast, turn by turn, says so. |
| `RequestFaults.SuppliedIffMapped` | kernel/memory.cpp:1030-1067 | The same for a whole request: it is supplied exactly if every page table it takes, for the new reserve and then for the pages asked for, is mapped when it is taken. |
| `RequestFaults.TableInFrameZero` | kernel/memory.cpp:948-998 | `map_page` with a page table that is not mapped enters frame 0 in the directory. |
| `RequestFaults.EmptyReserve` | kernel/memory.cpp:1034-1054 | With no reserve left the first page table is taken from the range just added, is not mapped, and the directory gets a table in frame 0. |
| `RequestFaults.NoRangeMapsZero` | kernel/memory.cpp:1018-1067 | Where low memory has a page table, a one-page request that finds no virtual range fails, but has mapped page 0 to a frame that was FREE. |
| `RequestRuns.NoSharedFrames` | kernel/memory.cpp:1000-1077 | Over any run of requests, some of which may fail, `translate_page` gives every byte of every range handed out an address in memory, and no two of them the same. |
| `RequestRuns.TranslationsLast` | kernel/memory.cpp:1000-1077 | No later request, succeed or fail, changes the translation or the rights of a byte handed out earlier. |
| `RequestRuns.RightsLast` | kernel/memory.cpp:1000-1010 | After any run every byte handed out is present, for the kernel alone, and writable, written through and uncached exactly as its own request asked. |
| `RequestStart.StartIsSound` | kernel/memory.cpp:899-998 | There is a sound state with a mapped page in reserve: one page table that maps itself and that page. |
| `RequestStart.StartServes` | kernel/memory.cpp:1000-1077 | In that state a request for 1 to 4096 bytes is supplied and served. |
| `MemoryManagers.MemoryManager.TranslatePage` | kernel/memory.cpp:899-913 | The walk in place gives the specified translation. |
| `MemoryManagers.MemoryManager.MapPage` | kernel/memory.cpp:948-998 | Directory, shadow index, frames and reserve in place become what is specified for `map_page`. |
| `MemoryManagers.MemoryManager.MapReserve` | kernel/memory.cpp:1045-1053 | The loop over new reserve pages does the specified run of turns, and fails where it does. |
| `MemoryManagers.MemoryManager.MapRange` | kernel/memory.cpp:1057-1067 | The loop over the pages asked for, which tests after each turn, does the specified run, also when its range is empty or wraps. |
| `MemoryManagers.MemoryManager.VmmRequest` | kernel/memory.cpp:1000-1077 | State and result in place are those specified for a request for memory. |
| `AmlNames.FindIsLookup` | kernel/aml.cpp:97-115 | In a namespace that is a tree with distinct sibling names, `find` gives an entry exactly if it is the child of that name. |
| `AmlNames.AppendKeeps` | kernel/aml.cpp:116-163 | Linking a new entry in keeps the tree: siblings stay distinct and `up` links right. |
| `AmlNames.FindOrNewFinds` | kernel/aml.cpp:116-146 | `find` afterwards returns what `find_or_new` returned, and the tree only grew. |
| `AmlNames.OtherLookups` | kernel/aml.cpp:97-146 | Every other lookup gives what it gave before. |
| `AmlNames.AllFound` | kernel/aml.cpp:97-163 | After any sequence of calls every entry returned is still the one `find` gives for its name and context. |
| `AmlNames.PathToFinds` | kernel/aml.cpp:97-163 | The names on the `up` links of an entry, looked up one after the other from the root, lead back to it. |
| `AmlNames.NameSpace.Find` | kernel/aml.cpp:97-115 | The loop over the sibling list gives the specified lookup. |
| `AmlNames.NameSpace.FindOrNew` | kernel/aml.cpp:116-146 | The lists in place become the specified ones, and the entry is the specified one. |
| `AmlBytes.PkgRoundTrip` | kernel/aml.cpp:339-366 | Every encoding of a package length is read back, whatever follows. |
| `AmlGrammar.WholeTable` | kernel/aml.cpp:1265-1273 | A table is read to its end if and only if every position reached before the end starts an object. |
| `AmlGrammar.ConcatStops` | kernel/aml.cpp:1265-1360 | A table that starts with the byte 0x73 is given up after one byte, whatever follows. |
| `AmlPaths.NameReadIff` | kernel/aml.cpp:248-313 | A written name is read if and only if it is of one segment, or of a counted number that is not zero; then as its root and segments, the carets lost. In either case the reader is left behind it. |
| `AmlPaths.CaretsIgnored` | kernel/aml.cpp:253-263 | Names that differ in their carets alone are accepted alike and looked up to the same entry, in every namespace and scope. |
| `AmlPaths.CaretMissesParent` | kernel/aml.cpp:248-313 | A name that goes up one level and names an entry of the parent scope is looked up to nothing, if the scope has none of that name. |
| `AmlPrograms.ElementIsTermArg` | kernel/aml.cpp:605-616 | A package element is read as an argument would be: the alternatives tried start with different bytes, so their order does not matter. |
| `AmlPrograms.TermRead` | kernel/aml.cpp:558-616 | Every argument, nested as deeply as one likes, is read to exactly its end wherever it stands in the byte code. |
| `AmlPrograms.ObjRead` | kernel/aml.cpp:801-1044 | Every name, scope, device, method, region, field, processor, mutex, statement and expression is read to exactly its end wherever it stands. |
| `AmlPrograms.ProgramRead` | kernel/aml.cpp:1265-1273 | A table made of such objects is read to its end, object by object, and no further. |
| `AmlEffects.FoundEntered` | kernel/aml.cpp:314-338 | Entering a path that leads somewhere makes nothing and ends there. |
| `AmlEffects.EnteredFound` | kernel/aml.cpp:314-338 | After a path has been entered, `find` leads along it to its entry. |
| `AmlEffects.DeclaredIsEntered` | kernel/aml.cpp:248-338 | `declare_name` on a name whose segments are still kept as they were read comes to entering its path from the root or the scope. |
| `AmlEffects.JustRead` | kernel/aml.cpp:283-304 | A counted name just read is kept as it was read: each segment with the entry found for it in the entry of the one before. |
| `AmlTermNames.TermKept` | kernel/aml.cpp:558-616 | An argument that refers to nothing by a counted name leaves the names kept as they were, in all its failed attempts too. |
| `AmlDeclarations.ObjDeclares` | kernel/aml.cpp:801-1044 | Reading an object wherever it stands does to the namespace what the object says: a Name, Scope, Device or Method is entered by its path, the objects of a Scope or Device inside its entry, and any other object declares nothing. |
| `AmlDeclarations.ProgramDeclares` | kernel/aml.cpp:1265-1273 | The same for a whole table of objects. |
| `AmlDeclarations.ObjInPlace` | kernel/aml.cpp:801-1044 | Everything an object declares is found in every later namespace by its own path from the entry of the object around it. |
| `AmlDeclarations.ObjOnlyNamed` | kernel/aml.cpp:801-1044 | Every entry that reading an object adds lies on a path that the object declares. |
| `AmlDeclarations.ProgramInPlace` | kernel/aml.cpp:1265-1273 | After a table of objects has been loaded, each Name, Scope, Device and Method is found by its own path from the entry of the object around it, every new entry lies on such a path, and all that was there stays. |
| `AmlDeclarations.NameNoted` | kernel/aml.cpp:815-828 | The entry of a Name just read is marked as one and points at exactly the bytes of its value. |
| `AmlDeclarations.NotesLast` | kernel/aml.cpp:801-1044 | Kind and value of an entry stay until an object describes that entry anew. |
| `AmlMisplaced.NameMisplaced` | kernel/aml.cpp:815-828 | A Name with a path of several segments that leads nowhere yet, and a counted name as its value, is declared under the path of the value. |
| `AmlMisplaced.MisplacedNotFound` | kernel/aml.cpp:815-828 | Unless both paths start alike, it is then not found by its own. |
| `AmlMisplaced.LongName` | kernel/aml.cpp:283-338 | Of a name with more than 16 segments that leads nowhere only the last is declared, in the scope itself. |
| `AmlReaders.AMLReader.Get` | kernel/aml.cpp:214-221 | The byte at the position, which moves on, or -1 at the end. |
| `AmlReaders.AMLReader.NameSeg` | kernel/aml.cpp:226-247 | Four bytes of which the first is a lead character, and where the reader is left if they are not there. |
| `AmlReaders.AMLReader.GetPkgLength` | kernel/aml.cpp:339-366 | The length written at the position; a package end from it is never before the length itself. |
| `AmlReaders.AMLReader.NameString` | kernel/aml.cpp:248-313 | Succeeds on exactly the names the byte-level definition accepts, ends where it says in either case, and returns and keeps every segment with the entry found for it in that of the one before. |
| `AmlReaders.AMLReader.DeclareName` | kernel/aml.cpp:314-338 | Namespace, names kept and the entry returned are those specified for declaring the name. |
| `AmlReaders.AMLReader.SuperName` | kernel/aml.cpp:402-414 | Succeeds and ends as the grammar says; on failure position and scope are restored. The names kept are the specified ones, and nothing is declared. |
| `AmlReaders.AMLReader.Target` | kernel/aml.cpp:415-425 | As `SuperName`, with the null name as one more alternative. |
| `AmlReaders.AMLReader.TypeSixOpcode` | kernel/aml.cpp:470-489 | Succeeds and ends as the grammar says, strictly past its start and in its scope, and keeps the names specified. |
| `AmlReaders.AMLReader.TypeOneOpcode` | kernel/aml.cpp:490-557 | The same, for statements whose bodies run up to a package end. |
| `AmlReaders.AMLReader.TypeTwoOpcode` | kernel/aml.cpp:558-604 | The same, with a method call as the default. |
| `AmlReaders.AMLReader.TermArg` | kernel/aml.cpp:605-616 | Succeeds and ends as the grammar says, and keeps the names specified; on failure position and scope are restored. |
| `AmlReaders.AMLReader.GetValue` | kernel/aml.cpp:617-682 | Succeeds exactly if the bytes are there, with the number they make, lowest first. |
| `AmlReaders.AMLReader.ComputationalData` | kernel/aml.cpp:683-758 | Succeeds and ends as the grammar says, also where a buffer's end moves the reader back. |
| `AmlReaders.AMLReader.DataObject` | kernel/aml.cpp:759-787 | The same, with packages of names and data. |
| `AmlReaders.AMLReader.DataRefObject` | kernel/aml.cpp:788-800 | Succeeds and ends as the grammar says; on failure position and scope are restored. |
| `AmlReaders.AMLReader.NameOp` | kernel/aml.cpp:815-828 | Ends as the grammar says, and leaves namespace and names kept as specified: the name is declared if its value is read. |
| `AmlReaders.AMLReader.NamedPackage` | kernel/aml.cpp:829-880 | Scope, Device and Method: ends at the package end in the scope it came from, and leaves the namespace as specified: the name is declared, and the objects are read inside its entry. |
| `AmlReaders.AMLReader.FieldList` | kernel/aml.cpp:928-966 | Ends as the grammar of field elements says. |
| `AmlReaders.AMLReader.Object` | kernel/aml.cpp:801-1032 | Succeeds and ends as the grammar says, strictly past its start and in its scope, and leaves the namespace as specified. |
| `AmlReaders.AMLReader.TermObj` | kernel/aml.cpp:1033-1044 | On every byte string: succeeds and ends as the grammar says and leaves the namespace as specified, whichever alternatives fail; on failure position and scope are restored. |
| `AmlReaders.AMLReader.SkipUnknown` | kernel/aml.cpp:1273-1358 | The parts read behind a byte that starts no object leave the reader where the definition says. |
| `AmlReaders.AMLReader.LoadDsdt` | kernel/aml.cpp:1265-1360 | Ends on every byte string: at the end of the table or behind the first position that starts no object, in the scope it started in, with the namespace specified for the table. |
| `Keyboards.EventDecodes` | kernel/dev/keyboard.cpp:175-257 | The bytes of each plain, E0 and E1 make or break event do what the event does. |
| `Keyboards.ControlsIgnored` | kernel/dev/keyboard.cpp:175-186 | Bytes above 0xF0, anywhere in the stream, change nothing. |
| `Keyboards.StreamDecodes` | kernel/dev/keyboard.cpp:175-257 | Any stream that encodes a sequence of events, control bytes strewn in, is decoded as exactly those events, and the decoder is in state 0 again. |
| `Keyboards.StreamIsEvents` | kernel/dev/keyboard.cpp:175-257 | Conversely every stream is the encoding of some events and the bytes pending in the decoder's state. |
| `Keyboards.WholeEvents` | kernel/dev/keyboard.cpp:175-257 | The decoder is in state 0 exactly if the stream is a sequence of whole events. |
| `Keyboards.ModsAreHeld` | kernel/dev/keyboard.cpp:89-167 | Of each of the ten modifiers, told by its own make and break events, the bit is set if and only if the last of them was the make. |
| `Keyboards.ResetOnCtrlAltDel` | kernel/dev/keyboard.cpp:126-167 | A reset is requested by the break of E0 71 while either Ctrl and either Alt are held, and by nothing else. |
| `Keyboards.QueueIsTail` | kernel/dev/keyboard.cpp:24-37 | The queue holds the numbers of the last sixteen events, each told from its code bytes and marks, newest first. |
| `Keyboards.LastKeys` | kernel/dev/keyboard.cpp:121-167 | `lastkey1` is the number of the last event, and after a break `lastkey2` that of the event before. |
| `Keyboards.Keyboard.PushKey` | kernel/dev/keyboard.cpp:24-30 | The shifting array in place becomes the specified queue. |
| `Keyboards.Keyboard.PopKey` | kernel/dev/keyboard.cpp:31-37 | The oldest code is returned and removed, or 0 if there is none. |
| `Keyboards.Keyboard.PortData` | kernel/dev/keyboard.cpp:175-257 | All fields in place become what the specified step makes of them. |
| `Arp.AssignFinds` | kernel/net/queue.cpp:121-138 | While there is room the address assigned is the system address and has an entry. |
| `Arp.AssignKeepsOthers` | kernel/net/queue.cpp:81-138 | Every other address keeps its entry, and none gains one. |
| `Arp.ArpLayer.AssignIp4` | kernel/net/queue.cpp:121-138 | Table and system address in place are the specified ones. |
| `Checksums.IpChksum` | kernel/net/queue.cpp:794-809 | Both loops end, no 32-bit sum overflows, and the result is the folded sum of what is added. |
| `Checksums.EvenIsOnesComplement` | kernel/net/queue.cpp:794-809 | For every even length the result is the one's complement sum of the 16-bit words and the seed. |
| `Checksums.OddIsOnesComplement` | kernel/net/queue.cpp:794-809 | For an odd length it is that sum of the zero-padded words if and only if the last byte and the one behind it are both 0 or both 255. |
| `Checksums.HeaderVerifies` | kernel/net/queue.cpp:811-853 | Every IP header filled in with the complemented sum sums to 0xffff. |
| `Checksums.DatagramVerifies` | kernel/net/queue.cpp:855-873 | Every even-length datagram filled in that way sums to 0xffff with its pseudo header, and its checksum is not zero. |
| `Checksums.Packet.PsudoCheck` | kernel/net/packet.hpp:39-49 | The value is the sum of protocol and address words of the header in the packet. |
| `Checksums.Packet.FillIp` | kernel/net/queue.cpp:811-853 | Fails, writing nothing, exactly when the link address is not known; else link header and header fields are those asked for, field by field, and the header verifies. |
| `Checksums.Packet.FillUdp` | kernel/net/queue.cpp:855-873 | Link address, ports, addresses, and lengths for up to 1472 bytes of message are those asked for, header and even-length datagram verify, and the payload is as it was. |
| `DhcpOptions.WalkEncoded` | kernel/net/queue.cpp:400-452 | Any options with codes 1 to 254 and at most 255 bytes each, with an end mark, are walked back as the same list. |
| `DhcpOptions.CheckedOptions` | kernel/net/queue.cpp:400-452 | The first walk accepts exactly if every option has the size insisted on, and notes exactly the codes that occur, with type and server from the last options that give them. |
| `DhcpOptions.AcceptedSetsAll` | kernel/net/queue.cpp:481-514 | A message that passes the first walk sets mask, router and lease time in the second, all from the last options that give them. |
| `DhcpOptions.Scan` | kernel/net/queue.cpp:400-452 | The first loop over the packet gives the specified check of the options it walks. |
| `DhcpOptions.Settle` | kernel/net/queue.cpp:486-514 | The second loop gives the settings of the same options. |
| `DhcpOptions.OptionAdder.Add` | kernel/net/queue.cpp:182-210 | A new option stands behind those written so far. |
| `DhcpOptions.OptionAdder.Value` | kernel/net/queue.cpp:182-210 | The bytes go to the last option, and its length byte counts them. |
| `DhcpOptions.OptionAdder.Close` | kernel/net/queue.cpp:182-210 | A walk of the finished packet, whatever follows, gives exactly the options written, in order; nothing before them has changed. |
| `DhcpOptions.WriteRequest` | kernel/net/queue.cpp:553-575 | The options `send_packet` writes are those listed for its phase and addresses. |
| `DhcpOptions.RequestSays` | kernel/net/queue.cpp:553-575 | A reader of those options finds the type, the address and the server where given and not unicast, the twelve codes wanted and the length 1400. |
| `DhcpMessages.ForUsIff` | kernel/net/queue.cpp:371-386 | A message with given fields, laid out as RFC 2131 has them, is taken for this client exactly if it is an Ethernet reply to its own request and address, with no flag but broadcast. |
| `DhcpMessages.AcceptedIff` | kernel/net/queue.cpp:371-452 | The checks of `recv` pass exactly the messages that are for this client, are well sized and give all options needed; type and server noted are those in them. |
| `DhcpClients.VerifyKeeps` | kernel/net/queue.cpp:270-298 | With an offer kept `verify` always selects one that is there, and the invariant holds afterwards. |
| `DhcpClients.ReachableClients` | kernel/net/queue.cpp:220-526 | Over every interleaving of ticks and messages: offers are there exactly below their count, which is at most 4, state 5 has one, states 0, 1, 2, 6, 7 and 8 have none, a lease address means state 6, 7 or 8, and the system address is the lease address. |
| `DhcpClients.MessageExact` | kernel/net/queue.cpp:453-526 | What each message does: an accepted OFFER is kept with its address and server while the client waits for offers and has room, an accepted NAK takes it back to the start with lease and offers gone, an accepted ACK gives it the lease in it, and any other changes nothing. |
| `DhcpRuns.OfferCameIn` | kernel/net/queue.cpp:468-476 | In any run every offer kept came in an OFFER accepted in it, in answer to the request still current: address and server are those of that message. |
| `DhcpRuns.MoreNotes` | kernel/net/queue.cpp:387-399 | Of two accepted offers that is preferred which alone has the first of router discovery, domain name, time servers and time offset. |
| `DhcpRuns.LeaseCameIn` | kernel/net/queue.cpp:475-526 | In any run a lease held came in an ACK accepted in it: address, server and times are those of that message. |
| `DhcpRuns.RequestExact` | kernel/net/queue.cpp:270-369 | A tick sends a request only for the first of the best offers kept, or to renew the lease held. |
| `DhcpRuns.RequestNamesOffer` | kernel/net/queue.cpp:270-298 | A request for an offer, in any run, names address and server of an OFFER accepted in it. |
| `DhcpRuns.RenewalNamesLease` | kernel/net/queue.cpp:270-284 | A request to renew names the address of an ACK accepted in the run, and goes to the server of that ACK while more than an eighth of its time is left, to anyone after that. |
| `DhcpRuns.Unanswered` | kernel/net/queue.cpp:270-369 | With no message accepted a client that looks for a server, or for an answer, goes on for an exactly computed number of ticks, sends exactly the tries computed, and then shuts down or starts anew. |
| `DhcpRuns.NoServer` | kernel/net/queue.cpp:220-369 | From the start the first DISCOVER goes out with tick 111, and with tick 460 and seven of them sent the client shuts down. |
| `DhcpRuns.ShutDown` | kernel/net/queue.cpp:300-369 | A client shut down stays so, whatever comes. |
| `DhcpClients.HeldCountsDown` | kernel/net/queue.cpp:300-351 | In states 6 and 7 every tick brings the end of the lease one tick nearer. |
| `DhcpClients.RenewalCountsDown` | kernel/net/queue.cpp:352-369 | In state 8 too, although entering it again resets the sub-second count. |
| `DhcpClients.LeaseEnds` | kernel/net/queue.cpp:300-369 | With no further message accepted, the lease is held up to an exactly computed tick and given up with it. |
| `DhcpClients.LeaseBound` | kernel/net/queue.cpp:300-369 | That tick is at most 16 times the seconds of the lease. |
| `DhcpClients.GivenUpIff` | kernel/net/queue.cpp:300-369 | A lease is ever given up by time alone if and only if it is for at least two seconds and not for ever. |
| `DhcpClients.DhcpClient.EnterState` | kernel/net/queue.cpp:224-268 | Fields, offers and ARP table in place become those of the specified state change. |
| `DhcpClients.DhcpClient.Verify` | kernel/net/queue.cpp:270-298 | State and request sent are the specified ones. |
| `DhcpClients.DhcpClient.Run` | kernel/net/queue.cpp:300-369 | One tick in place does what is specified for it. |
| `DhcpClients.DhcpClient.Receive` | kernel/net/queue.cpp:371-526 | One message in place does what is specified for it. |
| `NicModel.RequestSucceeds` | kernel/net/queue.cpp:689-700 | At most 127 + 127 + 4 packets and three local handles are in use, so a request on the pool of 340 always finds one. |
| `NicModel.RequestGood` | kernel/net/queue.cpp:689-700 | The packet found was held by nothing, and every count stays right. |
| `NicModel.AddReceiveGood` | kernel/dev/e1000.cpp:824-835 | A packet goes into the ring, counted once more, or the full ring is left alone. |
| `NicModel.TransmitGood` | kernel/dev/e1000.cpp:796-822 | A frame is queued at the tail, counted once more, or dropped if too small or one too many. |
| `NicModel.ReleaseGood` | kernel/dev/e1000.cpp:749-764 | What is released is the oldest frame sent, and the card has finished that frame. |
| `NicModel.ReclaimGood` | kernel/dev/e1000.cpp:749-764 | The whole reclaim loop keeps the order of frames and every count, and releases every frame up to the first that the card has not finished. |
| `NicModel.ReceiveGood` | kernel/dev/e1000.cpp:773-791 | Whatever the network layer does with a frame, no packet ends up held twice, and the ring is as long as before unless it was full. |
| `NicModel.RefillGood` | kernel/dev/e1000.cpp:740-746 | Every packet requested goes into the ring as far as it has room, and the last handle is let go. |
| `NicModel.ReceiveAllDone` | kernel/dev/e1000.cpp:773-791 | The receive loop passes on every packet filled when it starts and stops at the first that is not. |
| `NicModel.StepSound` | kernel/dev/e1000.cpp:720-835 | Every step of a sender, the card, the driver or the DHCP client keeps rings, counts and order right. |
| `NicModel.StartIsSound` | kernel/dev/e1000.cpp:720-835 | The empty rings with an unused pool are a state of that kind. |
| `NicModel.RunsAreSound` | kernel/dev/e1000.cpp:720-835 | In every state reached each count is the number of slots and offers that hold the packet, and at most 1; frames leave in the order accepted, each only after the card finished it. |
| `NicDriver.RingBuffer.Advance` | kernel/dev/e1000.hpp:15-41 | The slot to fill is the old tail, and the tail moves on by one around the ring. |
| `NicDriver.Network.RequestPacket` | kernel/net/queue.cpp:689-700 | Handle and counts in place are the specified ones. |
| `NicDriver.Network.AddToReceive` | kernel/dev/e1000.cpp:824-835 | Ring and counts in place are the specified ones. |
| `NicDriver.Network.TransmitPacket` | kernel/dev/e1000.cpp:796-822 | Ring and counts in place are the specified ones. |
| `NicDriver.Network.ReclaimSent` | kernel/dev/e1000.cpp:749-764 | The loop does the specified reclaim. |
| `NicDriver.Network.ResetAllOffers` | kernel/net/queue.cpp:263-267 | The loop lets go of every offer and leaves none. |
| `NicDriver.Network.ReceiveFrames` | kernel/dev/e1000.cpp:773-791 | The loop does the specified turn for every frame that is done. |
| `Schedulers.StepKeeps` | kernel/scheduler.cpp:69-170 | Every step of the core, a task or an interrupt keeps slots, wait bitmaps, saved contexts and who runs in agreement. |
| `Schedulers.OneRunning` | kernel/scheduler.cpp:69-90 | In every state reached at most one slot is running, and a task that has the processor is it. |
| `Schedulers.LeavesWith` | kernel/i686/ixkm.s:858-949 | Only losing the processor changes the context a task is remembered with, and then to what it had. |
| `Schedulers.ResumesWhereLeft` | kernel/i686/ixkm.s:858-949 | However much runs in between, a task that gets the processor back has the context it had when it lost it. |
| `Schedulers.StartsAtEntry` | kernel/scheduler.cpp:92-104 | A task that has been started first runs at its entry, however much runs before, and has asked for no interrupt. |
| `Schedulers.CoreResumes` | kernel/scheduler.cpp:69-90 | In any run, whenever a step takes the processor from a task to the core, the core goes on with the context it had at its last dispatch, and interrupts off. |
| `Schedulers.CoreInterrupted` | kernel/scheduler.cpp:150-172 | An interrupt of the core itself leaves it where it was. |
| `Schedulers.AskedSince` | kernel/scheduler.cpp:125-138 | A task has asked for exactly the interrupts it asked for since it was started. |
| `Schedulers.WakesWhoAsked` | kernel/scheduler.cpp:105-115 | An interrupt makes exactly those waiting tasks runnable that asked for it or for a number the bitmap does not tell from it. |
| `Schedulers.WakesExactly` | kernel/scheduler.cpp:125-170 | Below 0x80 those are exactly the tasks that asked for that interrupt. |
| `Schedulers.HighNumbersAlias` | kernel/scheduler.cpp:125-170 | A task that waits for interrupt 0x80 alone is made runnable by interrupt 0x60. |
| `Schedulers.Preempted` | kernel/scheduler.cpp:150-172 | The timer gives the processor to the core and leaves the task runnable; a task that waits is left waiting. |
| `Schedulers.Fair` | kernel/scheduler.cpp:69-90 | While a slot stays runnable at most 31 other tasks are dispatched. |
| `Schedulers.ClaimedInTime` | kernel/scheduler.cpp:69-90 | In any run in which the core tests 32 slots, a slot runnable at the start is claimed, after at most 31 other dispatches. |
| `Schedulers.Scheduler.GetFree` | kernel/scheduler.cpp:51-62 | The loop reserves the first empty slot, or finds none. |
| `Schedulers.Scheduler.WakeTasks` | kernel/scheduler.cpp:105-115 | The loop over the slots wakes as specified. |
| `Schedulers.Scheduler.WakeOnInterrupt` | kernel/scheduler.cpp:125-138 | The bitmap of the running task gains exactly the bit of that number. |
| `Schedulers.Scheduler.FromInterrupt` | kernel/scheduler.cpp:150-170 | State in place is that specified for an interrupt. |
| `Schedulers.Scheduler.RunStep` | kernel/scheduler.cpp:69-90 | One step of the loop in place is the specified one. |

## Left out

Memory:

- `aquire`, `aquire_control`, `add_control` and more than one extent table: `aquire` is taken as failing.
- `mem::initialize`, `load_memmap` and the off-by-one table initialisers: the model starts from an initialised table.
- Requests with RQ_LARGE, with RQ_HINT, or without RQ_ALLOC.
- Requests.CountSuffices: not for a range across a 1 GB boundary, where the count wraps; the memory the kernel hands out lies in the top gigabyte.
- What a trie leaf records of an extent: an existing leaf is never updated.
- Frees: the source has none.
- RequestRuns.NoSharedFrames: speaks of runs in which each request finds a virtual range, slots of the extent table for what it takes, and page tables that are mapped when they are taken, or in which no frame is left. Each can be told before the request; what happens otherwise is under "What the code does not meet".

AML:

- Printing, `ext_op` (which nothing calls) and the `debug_aml` commands.
- The values of AMLData beyond the integers read; `dsdt_base` checks and the mapping of the table.
- A failed block allocation in `NameBlock::make`.
- AmlReaders.AMLReader.TermObj: does not restore `depth` on failure, as the source does not; the contract only says that it is not left too often.
- AmlPrograms.ObjRead: field elements are of the three forms the reader reads whole; the bodies of `If`, `While` and `Else` are arguments, which is what the reader takes them to be.

Keyboard and network:

- The PS/2 controller; the keyboard's fields packed into one word.
- Checksums.EvenIsOnesComplement: not for length 0, where the first loop reads a pair that is not there.
- `resolve_with_arp`, `runarp`, `handle_arp`, ICMP, and `enqueue` beyond what it does with a packet's handle.
- `assign_ip4` without room in the ARP table, where the source writes outside it.
- The bytes of a DHCP packet sent other than its options; kept offers are values, not packets still in their buffers.
- The random transaction numbers, which are parameters; state 4 is never entered.
- The card's registers, interrupt bits and fences. The network layer's part in a received frame is one of: nothing, keep, drop the offers kept, answer.
- Copies of a handle passed down a call and dropped on return; a driver step is not interrupted.

Scheduler:

- A scheduler entered from a task, task end, and failed allocation of a stack or task block.
- Schedulers.ClaimedInTime: takes for granted that the core goes on testing slots; a task that neither waits nor lets the timer in keeps the processor.
- Wake-ups that come while a task is not waiting, which the source does not remember.

Elsewhere: ChaCha, the terminal, frame buffer and VGA text, CMOS, PCI, APIC, page-fault printing and boot code.
