# SourceMod core: models and proofs

The core of SourceMod keeps its state in hand-made mutable structures: lists linked by index inside arrays,
free stacks, arenas and a sliding text buffer. This project models nine of them and proves what they are for.
Each component has a specification (a state, and functions for what each operation does to it), an invariant
with the lemmas that every operation and every run keeps it, and, where the program works in place, a class
whose methods do the same steps on fields and arrays and are proved equal to the specification.

* **Handles** (`Handle*.dfy`). One array is slot table, free stack, chain nodes and chain sentinels at once.
  `HandleInv.Inv` joins the free stack, the chains, the opened counts, the clone counts, the object balance
  (every object handed over is held by exactly one original or destroyed exactly once) and the serials. The
  code is kept as it is, including the second unlink of an original that was freed before its clones, and
  each operation's theorem says exactly when that does harm: `HandleExact.FreeExact` for FreeHandle,
  `HandleRemoval.RemovalExact` for RemoveType, `HandleDying.DeathExact` for the release of an identity, and
  `HandleLosses.StepExact` for any step. Runs of ordinary calls lead to each of the three. For the release
  of an identity, whose loop follows the links while they are being unlinked, the left-over links have to be
  tame (`HandleLinks.Tame`): `HandleLinks.IdentityReleased` shows that the loop then frees exactly the
  identity's own handles, and `HandleStrays` has a run in which they are not tame and the loop goes astray.
* **SMC text parser** (`Smc*.dfy`). `SmcMachine` is the parser as a machine over the whole text; `SmcParser`
  is the loop over a 4096-character window with pointers into it, which is shifted and refilled, and `SmcLoop`
  is that loop as a function. The loop makes the callbacks and returns the error of the machine where the
  window serves the text. It does serve it when the parser never has to look back more than 4093 characters
  (`SmcRoom.RoomyOk`), so for printed forests of any size with short lines (`SmcPrinted`), and it does not when
  the parser has to look back more than 4095 (`SmcRoom.RoomyNeeded`). Loop and machine may then differ without
  an error (`SmcLoop.LongLinesLose`) or agree because nothing shows what was lost (`SmcOverflow.AgreesUnserved`);
  where a whole bufferful has no line end they differ, unless the parse ends within it (`SmcOverflow.FullExact`).
  On the machine: the order of the callbacks for every text and listener, and the print/parse round trip.
* **Extensions** (`Extension*.dfy`). The recursive unload over a dependency graph that may have cycles.
* **Admin cache** (`Admin*.dfy`). Two intrusive lists with their free lists, the name index, and the group
  tables of the admins.
  Flags are followed one by one: what inheriting a group, invalidating it and setting flags does to each
  (`AdminBits`).
* **Menus** (`Menu*.dfy`). Paging in both directions over items of which some cannot be drawn.
* **Phrases** (`Phrase*.dfy`). The two passes over a `#format` list, the expansion of a translation into a
  buffer that is sized in advance and written without checks, and the array of used parameters, which suffices
  exactly for lists of at most 32 formats. `PhraseRoundTrip` says exactly which written lists are accepted, what
  is stored for each index, and what a written translation becomes.
* **Data packs** (`DataPack.dfy`). A growing byte buffer with sized writes and reads. The bounds the reads check
  are right if and only if every write was made where the size then stood (`DataPack.RunSafe`).
* **Timers** (`Timer*.dfy`). The timer system as a machine that is suspended whenever it calls a listener; a
  listener may call it again. RunFrame calls only timers whose time has come (`TimerDue.OnlyDue`), and all of
  them but one-shot timers put in front of the one being called (`TimerDue.NoneLeft`, `LeftInFront`). A map
  change ends every flagged timer (`TimerMaps.FlaggedGo`), and no other unless its object is used again in
  between (`FlaggedExactly`, `UnflaggedGoes`). After a map change within a map change the machine never comes to rest: it ends
  up at a pop of the empty stack and stays there. In the code such a pop is undefined behaviour.
* **Database queue** (`Database*.dfy`). Main thread and worker as interleaved steps, with calls made from
  within operations. If no other drop begins or ends within the drop of an identity, that leaves an operation
  of the identity behind if and only if a loop under way at the call had set it aside
  (`DatabaseDrop.DropLeavesNothing`); a drop within a drop may leave more (`DatabaseBlock.NestedDropFails`).
  The loops take nobody else's operations, and every queue is first in, first out (`DatabaseOrder`).

Recurring names: `View()` is the abstract state of an object, `Valid()` says that the invariant holds of it.

## Model

| member | source | states |
|---|---|---|
| HandleTable.LinkChain | sourcemod/core/HandleSys.cpp:343-366 | linking a slot to a sentinel appends it at the tail: head, tail, prev and next all describe the longer chain |
| HandleTable.UnlinkChain | sourcemod/core/HandleSys.cpp:749-794 | in all four cases (only node, head, tail, middle) unlinking the k-th node leaves a chain of the other nodes in their order |
| HandleStack.Room | sourcemod/core/HandleSys.cpp:827-829 | while any slot is in use the free stack is shorter than the used part of the table, so the push in ReleasePrimHandle stays in range |
| HandleStack.StackMade | sourcemod/core/HandleSys.cpp:265-281 | after an allocation the free stack again holds, each once, exactly the vacant slots up to the tail |
| HandleStack.StackVacated | sourcemod/core/HandleSys.cpp:827-829 | and so after a slot has been vacated and pushed |
| HandleCounts.TypesMade | sourcemod/core/HandleSys.cpp:332-333 | a type's opened count stays the number of its slots in use when a slot is taken |
| HandleCounts.TypesVacated | sourcemod/core/HandleSys.cpp:827-828 | and when one is vacated |
| HandleCounts.ClonesCloned | sourcemod/core/HandleSys.cpp:581-582 | cloning keeps every reference count equal to (1 if the original is Used) plus its live clones, and clones are never of clones |
| HandleCounts.ClonesReleased | sourcemod/core/HandleSys.cpp:627-649 | so does releasing a clone, with its original if that was its last holder |
| HandleCounts.ClonesFreed | sourcemod/core/HandleSys.cpp:662-664 | so does freeing an original that has clones: it stays as Freed |
| HandleInv.NextSerialOf | sourcemod/core/HandleSys.cpp:312-321 | the counter with its wrap at the maximum gives the n-th handle the serial ((n - 1) mod 65534) + 1 |
| HandleInv.EmptyInv | sourcemod/core/HandleSys.cpp:55-67 | the invariant holds at the start |
| HandleInv.CreateKeeps | sourcemod/core/HandleSys.cpp:283-369 | creating a handle keeps the whole invariant; the chains differ only in that the new handle ends its owner's |
| HandleInv.CloneKeeps | sourcemod/core/HandleSys.cpp:561-587 | so does cloning an original |
| HandleFree.ReleaseKeeps | sourcemod/core/HandleSys.cpp:796-830 | releasing a handle, or a freed original whose owner no longer resolves, keeps stack, chains, opened counts and serials; the slot leaves its owner's chain and no other chain changes |
| HandleFree.FreeKeeps | sourcemod/core/HandleSys.cpp:623-674 | FreeHandle keeps the whole invariant except in the stale case; the chains differ only in that the handle has left its owner's |
| HandleExact.StaleBreaks | sourcemod/core/HandleSys.cpp:664-669 | in the stale case no assignment of chains makes the invariant true again, because the owner's count drops twice for one handle |
| HandleExact.FreeExact | sourcemod/core/HandleSys.cpp:623-674 | FreeHandle keeps the invariant if and only if the handle is not the last clone of a freed original whose owner still resolves to another slot |
| HandleDeath.ChainWalk | sourcemod/core/HandleSys.cpp:343-366 | following ch_next from an identity's head visits exactly the Used handles it owns, each once, ending at the tail; ch_prev is the inverse; the identity's refcount is 1 plus the length |
| HandleDeath.FreeChainKeeps | sourcemod/core/HandleSys.cpp:812-824 | freeing the tail until the chain is empty, when every freed original of a living owner keeps a clone elsewhere, keeps the invariant, empties that chain alone, and leaves every Used handle or identity outside it what it was, counts and links aside |
| HandleDeath.IdentityDies | sourcemod/core/HandleSys.cpp:796-830 | under the same condition, after an identity is released its slot is vacant, no Used handle has it as owner, all other chains are the same, and the handles of other owners and the other identities are unchanged; IdentityReleased needs less |
| HandleLinks.IdentityReleased | sourcemod/core/HandleSys.cpp:796-830 | when every freed original of another living owner keeps a clone outside the chain, and the left-over links of the identity's own freed originals that go with it name only slots where writing their neighbours again changes nothing that is still read, the loop, which follows the links, frees exactly the handles of the chain, in as many turns; the invariant holds, no Used handle has the identity as owner, and all other handles and identities are unchanged |
| HandleLinks.LoopIsChain | sourcemod/core/HandleSys.cpp:812-824 | where what is unlinked twice is tame the loop frees the chain's handles and no others, also when originals of other owners are unlinked twice |
| HandleLinks.TameNext | sourcemod/core/HandleSys.cpp:749-794 | a turn of the loop leaves the remaining left-over links tame |
| HandleLinks.SparedHarmless | sourcemod/core/HandleSys.cpp:812-824 | the condition of IdentityDies implies that of IdentityReleased |
| HandleLinks.SameInv | sourcemod/core/HandleSys.cpp:749-794 | the invariant does not depend on links and owners of slots that are not in use |
| HandleValues.ReadSurvives | sourcemod/core/HandleSys.cpp:704-747 | freeing any other handle, the original of x included, and in the stale case too, does not change what reading x gives |
| HandleValues.MakeErrors | sourcemod/core/HandleSys.cpp:265-311 | a handle is refused exactly when its owner does not resolve, or else when every slot is in use |
| HandleValues.LookupErrors | sourcemod/core/HandleSys.cpp:487-522 | each error of the lookup if and only if its cause: no such slot, not in use, an identity without the right to it, used again |
| HandleValues.ReadExact | sourcemod/core/HandleSys.cpp:720-745 | a live handle of a base type is read as that type or as the null type and as no other, one of a subtype as whatever has the same parent and as nothing else; it then gives the object of its original, and always as its own type |
| HandleValues.ReadRefused | sourcemod/core/HandleSys.cpp:711-714 | a value that is not accepted gives the error of the lookup |
| HandleValues.CloneReads | sourcemod/core/HandleSys.cpp:589-621 | a handle made by CloneHandle reads what the handle it was made from reads, also when that is itself a clone |
| HandleValues.LastHolderDestroys | sourcemod/core/HandleSys.cpp:641-661 | a free destroys the original's object, once, exactly when the freed handle was its only holder, and destroys nothing else |
| HandleValues.ValueAccepted | sourcemod/core/HandleSys.cpp:487-522 | the value of the n-th handle in slot i is accepted if and only if the slot is live and was last taken by a handle whose number is congruent to n modulo 65534 |
| HandleValues.StaleRejected | sourcemod/core/HandleSys.cpp:487-522 | so a freed value is rejected until 65534 handles have been made after it |
| HandleValues.ValuesDistinct | sourcemod/core/HandleSys.cpp:312-330 | any 65534 consecutive handle values are pairwise distinct |
| HandleValues.MadeValue | sourcemod/core/HandleSys.cpp:312-338 | the n-th handle carries serial and index of its number in 32 bits and is accepted at once |
| HandleSweep.SweepStep | sourcemod/core/HandleSys.cpp:876-910 | one turn of the loop of RemoveType keeps the loop's invariant with the chains, with clones and originals in any order, when no freed original of the type has an owner that resolves |
| HandleSweep.TypeRemoved | sourcemod/core/HandleSys.cpp:872-911 | under the same condition RemoveType keeps the invariant, leaves no handle of the type, and leaves the handles of other types as they were, although it stops as soon as opened is 0; RemovalExact says that the condition is exact |
| HandleLevel.ReleaseGround | sourcemod/core/HandleSys.cpp:796-830 | releasing any handle or freed original, also one that is unlinked a second time, keeps stack, opened counts and serials, and for every identity its count less the slots still to be unlinked from it, modulo 2^32 |
| HandleRemoval.RemovalLeavesNone | sourcemod/core/HandleSys.cpp:872-911 | RemoveType on a type without identities always leaves nothing of the type, destroys each of its objects once and keeps everything but, perhaps, the chains |
| HandleRemoval.RemovalExact | sourcemod/core/HandleSys.cpp:872-911 | RemoveType keeps the invariant, for some chains, if and only if no freed original of the type has an owner that still resolves |
| HandleDying.DeathNeeds | sourcemod/core/HandleSys.cpp:796-830 | if the invariant holds after an identity is released, every freed original of another living owner has kept a clone outside its chain |
| HandleDying.DeathExact | sourcemod/core/HandleSys.cpp:796-830 | where the left-over links are tame, releasing an identity, by the loop as it is, keeps the invariant, for some chains, if and only if every freed original of another living owner keeps a clone outside its chain; where they are not tame the loop may stray to other slots and nothing is said |
| HandleRuns.RunKeeps | sourcemod/core/HandleSys.cpp:283-911 | every run of create, clone, free, identity release and type removal keeps the invariant if each of its steps is sound; StepExact says that soundness is exact |
| HandleRuns.Reachable | sourcemod/core/HandleSys.cpp:283-911 | the invariant holds in every state that a run of sound steps reaches from the empty system |
| HandleRuns.StaleReachable | sourcemod/core/HandleSys.cpp:664-669 | a concrete sound run (identity, its handle, a clone, the original freed) after which freeing the clone leaves no chains that satisfy the invariant |
| HandleLosses.StepExact | sourcemod/core/HandleSys.cpp:561-911 | a step of a regular system (owners of freed originals are identities, and at the release of an identity the left-over links are tame, so that its loop frees the chain's handles and does not stray) keeps the invariant, for some chains, if and only if it is sound |
| HandleLosses.RemovalLoses | sourcemod/core/HandleSys.cpp:876-910 | after that run, removing the type leaves no chains that satisfy the invariant |
| HandleLosses.DeathLoses | sourcemod/core/HandleSys.cpp:812-824 | a run of sound steps after which releasing an identity that owns the last clone of another's freed original leaves none either |
| HandleStrays.EverydayRun | sourcemod/core/HandleSys.cpp:812-824 | an identity that clones a handle of its own, frees the original and is released: the run is sound, though the last clone is on its own chain |
| HandleStrays.ReleaseStrays | sourcemod/core/HandleSys.cpp:812-824 | when the handle before that original is freed too, the loop of the release is in its third turn at a slot that is not in use, against the assertion at 820, and leaves no chains that satisfy the invariant |
| HandleSystem.HandleSystem.constructor | sourcemod/core/HandleSys.cpp:55-67 | starts as the empty system |
| HandleSystem.HandleSystem.GetHandle | sourcemod/core/HandleSys.cpp:487-522 | gives the specified error for every value, or the slot |
| HandleSystem.HandleSystem.ResolveOwner | sourcemod/core/HandleSys.cpp:50-53 | the slot of an owner token, 0 if it does not resolve |
| HandleSystem.HandleSystem.TryAllocHandle | sourcemod/core/HandleSys.cpp:265-281 | pops the free stack, or extends the tail, or fails at the limit |
| HandleSystem.HandleSystem.LinkHandle | sourcemod/core/HandleSys.cpp:343-362 | the in-place relinking is the specified append, whatever the table holds |
| HandleSystem.HandleSystem.MakePrimHandle | sourcemod/core/HandleSys.cpp:283-369 | the whole new state on success; nothing changes on failure |
| HandleSystem.HandleSystem.CreateHandleInt | sourcemod/core/HandleSys.cpp:426-449 | object and clone fields of the slot just made; nothing changes on failure |
| HandleSystem.HandleSystem.CreateHandle | sourcemod/core/HandleSys.cpp:383-465 | keeps the invariant, with the new chains stated; nothing changes on failure |
| HandleSystem.HandleSystem.CloneIndex | sourcemod/core/HandleSys.cpp:561-587 | the inner CloneHandle in place |
| HandleSystem.HandleSystem.CloneHandle | sourcemod/core/HandleSys.cpp:589-621 | keeps the invariant; identities are refused, and a clone of a clone is a clone of the original |
| HandleSystem.HandleSystem.ReadHandle | sourcemod/core/HandleSys.cpp:704-747 | the specified error or object, through the original for a clone |
| HandleSystem.HandleSystem.UnlinkHandleFromOwner | sourcemod/core/HandleSys.cpp:749-794 | the in-place relinking of the four cases is the specified one |
| HandleSystem.HandleSystem.ReleaseSlot | sourcemod/core/HandleSys.cpp:796-830 | ReleasePrimHandle on a handle: unlinked, vacated, pushed, with the stack kept |
| HandleSystem.HandleSystem.FreeIndex | sourcemod/core/HandleSys.cpp:623-674 | the inner FreeHandle in place; the invariant is kept unless the case is stale |
| HandleSystem.HandleSystem.FreeOwned | sourcemod/core/HandleSys.cpp:812-824 | the loop follows the identity's link as long as it names a handle; it frees exactly the chain and terminates, also when an original of the identity is unlinked a second time on the way |
| HandleSystem.HandleSystem.ReleaseIdentity | sourcemod/core/HandleSys.cpp:796-830 | ReleasePrimHandle on an identity: its chain is emptied, the others are the same |
| HandleSystem.HandleSystem.FreeHandle | sourcemod/core/HandleSys.cpp:676-702 | FreeHandle by value: errors change nothing, handles and identities are freed as specified |
| HandleSystem.HandleSystem.SweepHandles | sourcemod/core/HandleSys.cpp:876-910 | the loop of RemoveType, with its early exit, whatever the chains |
| HandleSystem.HandleSystem.RemoveType | sourcemod/core/HandleSys.cpp:872-911 | leaves nothing of the type, each object destroyed once, and keeps the invariant exactly when no freed original of the type has an owner that resolves |
| SmcDiscipline.StepGood | sourcemod/core/TextParsers.cpp:391-699 | one character keeps: depth equals the open sections, a second staged string implies a first, and the listener agreed so far |
| SmcDiscipline.ParseDisciplined | sourcemod/core/TextParsers.cpp:326-770 | for every text and every listener: ParseStart first and only first, ParseEnd last and only last, depth never negative, pairs only inside sections with both strings staged, and Okay without a halt only at depth 0 |
| SmcErrors.OpenErrors | sourcemod/core/TextParsers.cpp:563-594 | an opening brace takes exactly one string; with none or more it ends the parse with the error for that |
| SmcErrors.CloseErrors | sourcemod/core/TextParsers.cpp:595-638 | a closing brace takes nothing, or a pair whose value no quote has ended, inside a section; anything else ends the parse with its error |
| SmcErrors.LineErrors | sourcemod/core/TextParsers.cpp:394-452 | the end of a line is shown, then a pair is taken, inside a section, and fewer strings stay; a third string or a pair outside is an error |
| SmcErrors.ThirdString | sourcemod/core/TextParsers.cpp:507-654 | a quote or a comment is an error exactly when three strings have been read |
| SmcErrors.BlankErrors | sourcemod/core/TextParsers.cpp:670-694 | a blank ends the first string, and is an error exactly behind a second one whose first has no quotes |
| SmcErrors.OtherCharacter | sourcemod/core/TextParsers.cpp:655-698 | a character that is neither blank nor special begins a string or is one more of it |
| SmcErrors.EndErrors | sourcemod/core/TextParsers.cpp:740-769 | the end of the text is an error exactly inside a section or with a string left |
| SmcPositions.StepTurns | sourcemod/core/TextParsers.cpp:391-699 | a turn moves line, column and line start with the text, and its callbacks are given the place of the character at which it is made |
| SmcPositions.ParseTold | sourcemod/core/TextParsers.cpp:326-770 | every callback of a parse is given the line and column of a character of the text, lines counted from one, columns from zero on the first line and from one on the others |
| SmcRoundTrip.UnescapePair | sourcemod/core/TextParsers.cpp:237-267 | what each escape comes to; an unknown one keeps its backslash |
| SmcRoundTrip.UnescapeEscape | sourcemod/core/TextParsers.cpp:237-267 | resolving escapes undoes escaping, for every string |
| SmcRoundTrip.OverRemark | sourcemod/core/TextParsers.cpp:394-506 | a /* comment leads from between tokens to between tokens and makes no callback about sections or pairs, for any words, newlines included, that do not contain the closing mark or begin with a slash, which would close it |
| SmcRoundTrip.OverNoteLine | sourcemod/core/TextParsers.cpp:507-563 | so does a comment that begins with a semicolon or two slashes, to the end of its line and no further |
| SmcRoundTrip.OverLoose | sourcemod/core/TextParsers.cpp:394-694 | a key without quotes and a value with or without are handed over as they stand |
| SmcRoundTrip.RoundTrip | sourcemod/core/TextParsers.cpp:391-699 | any forest of sections, pairs and comments, printed quoted and escaped in the layout of DumpCache (AdminCache.cpp:1852-2010), or with words that stand without quotes, with comments of all three kinds and of many lines, parses without error to exactly its pre-order sequence of callbacks |
| SmcRoundTrip.NameSurvives | sourcemod/core/TextParsers.cpp:453-484 | a name comes back if and only if it has no zero character and does not end in a backslash |
| SmcSurvival.OldestFirst | sourcemod/core/TextParsers.cpp:277-292 | whatever text follows, the oldest staged string is what the next callback hands over, as a name or as a key |
| SmcSurvival.PairSurvives | sourcemod/core/TextParsers.cpp:217-275 | a key and its value come back if and only if neither has a zero character or ends in a backslash, whatever the other is |
| SmcWindow.StepLook | sourcemod/core/TextParsers.cpp:475-494 | a turn that sees no following character either decides as it would with one, or waits and then decides as it would have |
| SmcWindow.RunToRuns | sourcemod/core/TextParsers.cpp:384-389 | parsing up to a cut and then on is parsing through, wherever the cut is |
| SmcWindow.ShortTextOk | sourcemod/core/TextParsers.cpp:364-369 | every text shorter than the room of the first read satisfies the condition on cuts |
| SmcRoom.StepForward | sourcemod/core/TextParsers.cpp:391-699 | the first character still needed never goes back |
| SmcRoom.RoomyOk | sourcemod/core/TextParsers.cpp:364-737 | a text of any length, read in full bufferfuls, satisfies the condition on cuts if the parser is never more than 4093 characters past the first one it still needs, which is a property of the machine on the whole text |
| SmcRoom.RoomyNeeded | sourcemod/core/TextParsers.cpp:364-737 | conversely, if a text satisfies the condition on cuts, in whatever cuts, the parser is never more than 4095 characters past it; this is about the condition, not about whether loop and machine agree |
| SmcLoop.CutsLoop | sourcemod/core/TextParsers.cpp:364-737 | under the condition on cuts the reading loop comes to what the machine does on the whole text |
| SmcLoop.LongLinesLose | sourcemod/core/TextParsers.cpp:701-737 | for two comments on lines of 2000 and 4095 characters the loop shows the listener 2094 characters of the second and reports no error, which is neither what the machine does nor TokenOverflow |
| SmcOverflow.AgreesUnserved | sourcemod/core/TextParsers.cpp:701-737 | a comment of 2000 characters on a line and one of 5000 without a line end: a read is overwritten and the condition on cuts fails, yet the loop comes to what the machine does |
| SmcOverflow.RunNever | sourcemod/core/TextParsers.cpp:391-769 | the machine, on any text, never gives TokenOverflow |
| SmcOverflow.FullExact | sourcemod/core/TextParsers.cpp:733-737 | when the next read fills the buffer with characters none of which ends a line, the loop comes to what the machine does if and only if an error or the listener ends the parse within them; otherwise it gives TokenOverflow |
| SmcOverflow.FirstLineExact | sourcemod/core/TextParsers.cpp:364-737 | so it is for every text that begins with 4095 characters without a line end |
| SmcPrinted.PrintedServed | sourcemod/core/TextParsers.cpp:364-737 | a printed forest of any size whose lines (a section's name line with its brace line, a pair, a comment) take at most 4093 characters satisfies the condition on cuts |
| SmcPrinted.ReadPrinted | sourcemod/core/TextParsers.cpp:326-770 | so the windowed parser reads it back without error, with exactly its pre-order sequence of callbacks, however many bufferfuls it takes |
| SmcBuffer.ShiftedKept | sourcemod/core/TextParsers.cpp:701-732 | after a shift to the lowest point needed, every staged pointer and the line denote the characters they denoted before |
| SmcBuffer.FilledKept | sourcemod/core/TextParsers.cpp:364-369 | so they do after more has been read behind them |
| SmcBuffer.CStrHere | sourcemod/core/TextParsers.cpp:269-275 | a string with a zero behind it in the buffer reads as that string up to its own first zero |
| SmcBuffer.LineRead | sourcemod/core/TextParsers.cpp:417-426 | with the newline replaced by a zero the buffer shows the line, as earlier fixups of its strings have left it |
| SmcBuffer.PairIsFixed | sourcemod/core/TextParsers.cpp:437-440 | the two FixupString calls leave the same strings whichever is evaluated first, also when an unquoted value begins where the key ends |
| SmcBuffer.PairReads | sourcemod/core/TextParsers.cpp:437-440 | what the callback reads through the two pointers are the specified key and value |
| SmcParser.Parser.ResolveEscapes | sourcemod/core/TextParsers.cpp:237-267 | the in-place loop leaves the unescaped string at its place, ended by a zero, and touches nothing outside the string |
| SmcParser.Parser.FixupString | sourcemod/core/TextParsers.cpp:217-275 | skips the quote, resolves escapes of strings of two or more characters, ends the string |
| SmcParser.Parser.RotateStrings | sourcemod/core/TextParsers.cpp:277-292 | the staged pointers move as the specified strings do, or there are three already |
| SmcParser.Parser.ShowLine | sourcemod/core/TextParsers.cpp:420-426 | the listener sees the line, and the newline is put back: the buffer is as before |
| SmcParser.Parser.HandPair | sourcemod/core/TextParsers.cpp:437-440 | the callback gets the specified key and value, and only these two strings of the buffer change |
| SmcParser.Parser.EndOfLine | sourcemod/core/TextParsers.cpp:417-451 | line callback, pair callback, errors and the next line are those of the machine |
| SmcParser.Parser.EatSlash | sourcemod/core/TextParsers.cpp:526-555 | the branch of a slash: wait, either comment, or part of a string |
| SmcParser.Parser.StartQuote | sourcemod/core/TextParsers.cpp:639-654 | the branch of an opening quote |
| SmcParser.Parser.EatBlank | sourcemod/core/TextParsers.cpp:670-694 | the whitespace branch, with the error for a third string |
| SmcParser.Parser.EatNewline | sourcemod/core/TextParsers.cpp:394-452 | the newline branch: callbacks, errors and next state are the machine's, and the pointers still mirror it |
| SmcParser.Parser.EatQuoted | sourcemod/core/TextParsers.cpp:455-484 | the branch inside quotes, with the wait for a character after a backslash |
| SmcParser.Parser.EatComment | sourcemod/core/TextParsers.cpp:485-506 | the branch inside a comment, with the wait after a star |
| SmcParser.Parser.OpenBrace | sourcemod/core/TextParsers.cpp:563-594 | the branch of an opening brace |
| SmcParser.Parser.CloseBrace | sourcemod/core/TextParsers.cpp:595-638 | the branch of a closing brace |
| SmcParser.Parser.EatCharacter | sourcemod/core/TextParsers.cpp:391-699 | one turn of the character loop over the buffer is one step of the machine |
| SmcParser.Parser.EatWindow | sourcemod/core/TextParsers.cpp:391-699 | the character loop over what has been read is the machine run up to there |
| SmcParser.Parser.Relocate | sourcemod/core/TextParsers.cpp:718-722 | subtracting the shift from every pointer makes them mirror the same strings in the moved window |
| SmcParser.Parser.ShiftDown | sourcemod/core/TextParsers.cpp:703-731 | the shift as a whole keeps what is staged |
| SmcParser.Parser.ReadStream | sourcemod/core/TextParsers.cpp:160-180 | a read delivers the next characters of the text behind what is kept, as many as the cut, the room and the rest allow |
| SmcParser.Parser.EatAndShift | sourcemod/core/TextParsers.cpp:384-737 | one window: parsed, then shifted, or TokenOverflow when a full buffer holds no line end |
| SmcParser.Parser.ReadAndEat | sourcemod/core/TextParsers.cpp:364-737 | one read and what follows from it, also when nothing is shifted and the next read overwrites this one |
| SmcParser.Parser.EndOfText | sourcemod/core/TextParsers.cpp:740-769 | the error and the last callback at the end of the text are those of the machine |
| SmcParser.Parser.ParseStream | sourcemod/core/TextParsers.cpp:326-770 | the sliding-window loop comes to what Loop says, overwriting included, wherever Loop says anything; where the condition on cuts holds, it returns the error and makes the callbacks (names, values, positions, order) of the machine on the whole text, for every text and listener |
| ExtensionUnload.UnloadCascade | sourcemod/core/ExtensionSys.cpp:699-825 | an unload ends on any graph; those that go were loaded, go once each, and are the least set that holds the target and is closed under refused dependencies; what remains is the list without them and without any entry naming them |
| ExtensionUnload.GoneReaches | sourcemod/core/ExtensionSys.cpp:739-822 | an extension goes if and only if there is a path of refused dependencies from it to the target |
| ExtensionManager.BindSane | sourcemod/core/ExtensionSys.cpp:626-652 | binding a dependency keeps: no duplicate entries, entries name loaded extensions, and refused dependencies and child entries mirror each other |
| ExtensionManager.UnloadSane | sourcemod/core/ExtensionSys.cpp:699-825 | so does an unload; in particular no entry names a removed extension |
| ExtensionManager.RunSane | sourcemod/core/ExtensionSys.cpp:602-825 | so does every run of loads, binds and unloads |
| ExtensionManager.Extension.AddDependency | sourcemod/core/ExtensionSys.cpp:312-318 | adds the entry unless it is there |
| ExtensionManager.Extension.AddChildDependent | sourcemod/core/ExtensionSys.cpp:325-344 | the search and the append add the entry unless it is there |
| ExtensionManager.Extension.DropDependencies | sourcemod/core/ExtensionSys.cpp:754-776 | the erasing loop removes exactly the entries on t, in order, and says whether one of them was refused |
| ExtensionManager.Extension.DropChildren | sourcemod/core/ExtensionSys.cpp:777-789 | the erasing loop removes exactly the back references to t |
| ExtensionSys.UnloadAt | sourcemod/core/ExtensionSys.cpp:713-822 | removing the extension at one position and stripping the others, then the queue, is the specified unload |
| ExtensionSys.Manager.AddExtension | sourcemod/core/ExtensionSys.cpp:602-624 | a new extension goes to the end of the list |
| ExtensionSys.Manager.BindDependency | sourcemod/core/ExtensionSys.cpp:626-638 | keeps the invariant; the owner is told exactly when the requester refuses to let go |
| ExtensionSys.Manager.AddRawDependency | sourcemod/core/ExtensionSys.cpp:640-652 | keeps the invariant; the owner is always told |
| ExtensionSys.Manager.NotifyOthers | sourcemod/core/ExtensionSys.cpp:739-790 | every other extension loses its entries on the removed one, and those that refuse are queued in the order of the list, once each |
| ExtensionSys.Manager.RemoveAt | sourcemod/core/ExtensionSys.cpp:713-790 | the extension leaves the list, and the others are stripped and queued |
| ExtensionSys.Manager.UnloadExtension | sourcemod/core/ExtensionSys.cpp:699-825 | the recursion over the shared list of objects computes the specified unload; an extension no longer in the list is left alone |
| ExtensionSys.Manager.UnloadQueue | sourcemod/core/ExtensionSys.cpp:817-822 | the loop over the queue, though each turn may unload later entries of it |
| AdminLists.AppendKeeps | sourcemod/core/AdminCache.cpp:441-484 | taking a record from the free list or the arena and appending it keeps live and free lists disjoint, acyclic and complete, and prev the inverse of next on all but the head |
| AdminLists.UnlinkKeeps | sourcemod/core/AdminCache.cpp:865-901 | in all four cases unlinking the k-th record keeps that; the others keep their order and the record heads the free list |
| AdminInv.LiveIs | sourcemod/core/AdminCache.cpp:960-995 | walking the links from the first record finds exactly the live list of the invariant |
| AdminInv.CreateKeeps | sourcemod/core/AdminCache.cpp:441-498 | creating an admin keeps the whole invariant (lists are exactly the SET and UNSET records, names index exactly the live groups, tables hold live groups once each) and leaves the other admins |
| AdminInv.AddKeeps | sourcemod/core/AdminCache.cpp:500-547 | so does adding a group, which is refused exactly when its name is taken |
| AdminDrops.SetAddFlagKeeps | sourcemod/core/AdminCache.cpp:569-590 | setting a group's flag keeps the invariant |
| AdminDrops.SetFlagsKeeps | sourcemod/core/AdminCache.cpp:1310-1327 | setting an admin's flags keeps the invariant |
| AdminBits.CreatedRecord | sourcemod/core/AdminCache.cpp:441-495 | a new admin has its name, no flags and no groups; a record used again keeps its table; no other admin, group or name changes |
| AdminBits.AddedRecord | sourcemod/core/AdminCache.cpp:497-547 | a new group has its name and no flags and is found by its name; nothing else changes |
| AdminBits.DroppedRecord | sourcemod/core/AdminCache.cpp:851-907 | an admin that goes is marked, lists nothing and has its change count reset |
| AdminBits.GrowsWhenFull | sourcemod/core/AdminCache.cpp:1361-1382 | a table grows exactly when it is full, to two entries or twice its size, with its entries |
| AdminBits.AddFlagSet | sourcemod/core/AdminCache.cpp:569-590 | after SetGroupAddFlag on a live group the flag is there if and only if it was enabled; every other flag, group and admin is as before |
| AdminBits.AddFlagRefused | sourcemod/core/AdminCache.cpp:569-581 | for a group that is not live or a flag that does not exist it changes nothing |
| AdminBits.FlagsSet | sourcemod/core/AdminCache.cpp:1310-1327 | SetAdminFlags writes the effective flags, and the own flags unless only the effective ones are meant, counts the change and changes nothing else |
| AdminBits.JoinHas | sourcemod/core/AdminCache.cpp:981-987 | flags joined with those of groups: a flag is there if and only if it was or one of the groups adds it |
| AdminBits.InheritHas | sourcemod/core/AdminCache.cpp:1384-1390 | after inheriting a group an admin has a flag if and only if it had it or the group adds it; its own flags are the same |
| AdminBits.GroupGoneHas | sourcemod/core/AdminCache.cpp:965-995 | after a group is invalidated an admin that listed it has a flag if and only if it is one of its own or a group that it still lists adds it |
| AdminDrops.InheritKeeps | sourcemod/core/AdminCache.cpp:1329-1400 | a group is added if and only if admin and group are live and it is not listed yet; it goes to the end of the list, its flags join the effective flags, other admins are unchanged, also when the table has to grow |
| AdminRetire.DropAdminKeeps | sourcemod/core/AdminCache.cpp:851-907 | invalidating an admin keeps the invariant, takes it alone out of the live list, and changes no other admin and no group |
| AdminRetire.DropAdminsKeep | sourcemod/core/AdminCache.cpp:1078-1083 | invalidating from the head until none is left ends and keeps the invariant |
| AdminRetire.DropListingTurn | sourcemod/core/AdminCache.cpp:965-995 | the turn at one admin removes the first entry of the group, keeps the order of the rest, and recomputes the effective flags from the rest |
| AdminRetire.DropListingsEach | sourcemod/core/AdminCache.cpp:960-996 | the whole loop does that to every admin of the list and leaves the others |
| AdminRuns.GroupGone | sourcemod/core/AdminCache.cpp:910-997 | after InvalidateGroup(g): g is not live and no name leads to it, the other names are the same, every live admin lists its other groups in the same order and not g, those that listed g have flags joined with the remaining groups' flags, the others are unchanged |
| AdminRuns.RunSound | sourcemod/core/AdminCache.cpp:441-1090 | the invariant holds after every run of all the operations |
| AdminRuns.NamesAreGroups | sourcemod/core/AdminCache.cpp:549-567 | after every run a name leads to g if and only if g is a live group of that name |
| AdminSystem.AdminCache.CreateAdmin | sourcemod/core/AdminCache.cpp:441-498 | the relinking in place gives the specified cache and keeps the invariant |
| AdminSystem.AdminCache.AllocUser | sourcemod/core/AdminCache.cpp:446-458 | the head of the free list, or a fresh index |
| AdminSystem.AdminCache.AppendUser | sourcemod/core/AdminCache.cpp:470-484 | the relinking at the tail is the specified append |
| AdminSystem.AdminCache.AddGroup | sourcemod/core/AdminCache.cpp:500-547 | the relinking in place gives the specified cache and keeps the invariant |
| AdminSystem.AdminCache.FindGroupByName | sourcemod/core/AdminCache.cpp:549-567 | finds the live group of that name, or there is none |
| AdminSystem.AdminCache.SetGroupAddFlag | sourcemod/core/AdminCache.cpp:569-590 | the flag of a live group, if it is a flag, and nothing else |
| AdminSystem.AdminCache.SetAdminFlags | sourcemod/core/AdminCache.cpp:1310-1327 | both flags, or the effective ones alone |
| AdminSystem.AdminCache.FindListing | sourcemod/core/AdminCache.cpp:1343-1354 | the loop finds the group among the entries in use, or it is not there |
| AdminSystem.AdminCache.GrowTable | sourcemod/core/AdminCache.cpp:1357-1384 | the doubled table, with the old entries copied |
| AdminSystem.AdminCache.StoreEntry | sourcemod/core/AdminCache.cpp:1386-1387 | the entry goes behind those in use, for an admin whose table has room |
| AdminSystem.AdminCache.AdminInheritGroup | sourcemod/core/AdminCache.cpp:1329-1400 | gives the specified cache and keeps the invariant |
| AdminSystem.AdminCache.UnlinkUser | sourcemod/core/AdminCache.cpp:865-883 | the four cases in place |
| AdminSystem.AdminCache.InvalidateAdmin | sourcemod/core/AdminCache.cpp:851-907 | keeps the invariant; exactly this admin leaves the live list |
| AdminSystem.AdminCache.InvalidateAdminCache | sourcemod/core/AdminCache.cpp:1078-1083 | the loop empties the live list and keeps the invariant |
| AdminSystem.AdminCache.UnlinkGroup | sourcemod/core/AdminCache.cpp:923-941 | the four cases in place |
| AdminSystem.AdminCache.RetireRecord | sourcemod/core/AdminCache.cpp:920-958 | name, live list and free list after the first part of InvalidateGroup |
| AdminSystem.AdminCache.ShiftEntries | sourcemod/core/AdminCache.cpp:973-978 | the inner loop moves everything behind the entry down by one |
| AdminSystem.AdminCache.RecalcFlags | sourcemod/core/AdminCache.cpp:981-987 | the inner loop joins the flags of the groups that are left |
| AdminSystem.AdminCache.RemoveEntry | sourcemod/core/AdminCache.cpp:973-991 | what happens to the admin whose entry is found |
| AdminSystem.AdminCache.InvalidateGroup | sourcemod/core/AdminCache.cpp:910-997 | keeps the invariant; exactly this group leaves the live list |
| AdminSystem.AdminCache.DropEntries | sourcemod/core/AdminCache.cpp:960-996 | the walk over the links reaches every live admin once |
| AdminSystem.AdminCache.InvalidateGroupCache | sourcemod/core/AdminCache.cpp:999-1032 | the cache is the empty one again |
| MenuRuns.OpenPage | sourcemod/core/MenuManager.cpp:250-432 | a menu opens on the first chunk of the drawable items, with Next exactly when there are more, or not at all when there are none |
| MenuRuns.NextPage | sourcemod/core/MenuManager.cpp:250-432 | Next leads from an aligned chunk to the following one, with Back offered and Next exactly when there are more |
| MenuRuns.BackPage | sourcemod/core/MenuManager.cpp:250-432 | Back leads to the chunk before, with Next offered and Back exactly when it is not the first |
| MenuRuns.RunPages | sourcemod/core/MenuManager.cpp:250-432 | after any presses the page is the aligned chunk they lead to, with exactly the buttons that lead somewhere |
| MenuRuns.BackUndoesNext | sourcemod/core/MenuManager.cpp:269-282 | after any presses, Next and then Back shows the same page |
| MenuRuns.NextShowsAll | sourcemod/core/MenuManager.cpp:256-268 | the pages of a Next-only traversal, one after the other, are the drawable items in order, each once |
| MenuRuns.BackMissing | sourcemod/core/MenuManager.cpp:409-431 | a menu opened on a later item offers Back if and only if the drawable item before it is not item 0: the search never looks at item 0 |
| MenuRuns.PastEnd | sourcemod/core/MenuManager.cpp:254-266 | Next from past the last item gives the last items, with Back if there are more and without Next |
| MenuManager.MenuStates.FindItems | sourcemod/core/MenuManager.cpp:301-354 | the loop finds the first m drawable items in its direction, and the one after those if there is one |
| MenuManager.MenuStates.FindAbove | sourcemod/core/MenuManager.cpp:388-408 | the loop finds the next drawable item |
| MenuManager.MenuStates.FindBelow | sourcemod/core/MenuManager.cpp:409-431 | the loop finds the last drawable item before, short of item 0 |
| MenuManager.MenuStates.RenderPage | sourcemod/core/MenuManager.cpp:229-432 | page and new states are those of the specification; a page size below 2 changes nothing |
| MenuManager.MenuStates.FinishPage | sourcemod/core/MenuManager.cpp:363-432 | buttons, firstItem and lastItem for what was found, in the order in which it is drawn |
| PhraseRoundTrip.ListExact | sourcemod/core/Translator.cpp:277-485 | a list of n entries {index:format} is accepted if and only if the indices are 1 to n, each once, in any order, not written too long, and the formats have one to fourteen characters; then every format is stored under its index behind a percent sign |
| PhraseRoundTrip.TranslationReads | sourcemod/core/Translator.cpp:505-630 | a translation of plain text, groups in braces and escaped braces becomes its text with the format of each parameter in place of the first group that names it, the other groups as they are, and braces for the escaped ones; the order is that of the parameters |
| PhraseRoundTrip.StrtolReads | sourcemod/core/Translator.cpp:407-430 | an index is read with leading spaces and a sign, up to the first character that is no digit |
| PhraseBounds.PassesAgree | sourcemod/core/Translator.cpp:382-470 | the second pass over a text that the first accepted with count n fills a table of n entries, each once, and counts its bytes |
| PhraseBounds.FormatComplete | sourcemod/core/Translator.cpp:277-485 | so an accepted list has a format in every slot (the check at 475-485 never fires, for any number of entries), each a percent sign and one to fourteen characters, and fmt_bytes is their total |
| PhraseBounds.InsertedFits | sourcemod/core/Translator.cpp:604-614 | distinct parameters together insert at most fmt_bytes characters |
| PhraseBounds.ExpansionFits | sourcemod/core/Translator.cpp:505-630 | an expansion that ends at the terminator fits in strlen + fmt_bytes + 1 with its zero, and its order lists each parameter at most once, within range |
| PhraseBounds.EscapedExpands | sourcemod/core/Translator.cpp:553-577 | when every backslash has a known character or at least two characters behind it, the expansion does end at the terminator, for every list of parameters |
| PhraseBounds.EscapedExact | sourcemod/core/Translator.cpp:553-577 | in a text whose unknown escapes hide no other backslash and whose braces open no parameter, that condition is exact: if it fails, the reader steps over the terminator |
| PhraseBounds.PlainExpands | sourcemod/core/Translator.cpp:624-626 | a text without backslashes and braces is its own expansion |
| PhraseParams.ShortStays | sourcemod/core/Translator.cpp:524-614 | with a list of at most n formats no text makes the reader look past the first n entries of params |
| PhraseParams.ThirtyThree | sourcemod/core/Translator.cpp:598-614 | a list of more than 32 formats and the text {33} make it look behind the array |
| PhraseParams.ParamsExact | sourcemod/core/Translator.cpp:524-614 | every text stays within params if and only if the list has at most 32 formats |
| PhraseFile.BrowseFormat | sourcemod/core/Translator.cpp:296-364 | the first loop accepts and counts as specified |
| PhraseFile.ReadStrings | sourcemod/core/Translator.cpp:382-470 | the second loop fills the specified table through a 16-character buffer that it never leaves |
| PhraseFile.ReadParam | sourcemod/core/Translator.cpp:580-619 | the search for a parameter, with the array of used ones, finds what is specified, given that the entry looked at is in the array |
| PhraseFile.Translate | sourcemod/core/Translator.cpp:505-631 | the unchecked writes stay in the buffer and leave the specified expansion with its zero, for every list and every text that stays within params |
| PhraseFile.Phrase.ReadFormatKey | sourcemod/core/Translator.cpp:277-486 | a second list, or one after a translation, changes nothing; else the phrase gets the list or is ignored |
| PhraseFile.Phrase.ReadTranslation | sourcemod/core/Translator.cpp:505-631 | a translation that stays within params is expanded with the phrase's own list and byte count |
| DataPack.WordBytes | sourcemod/core/CDataPack.cpp:96-107 | a word is read back from its four bytes |
| DataPack.ReadBack | sourcemod/core/CDataPack.cpp:161-259 | an item packed anywhere is read back from there, whatever precedes or follows it, and the position moves behind it |
| DataPack.RoundTrip | sourcemod/core/CDataPack.cpp:56-259 | reading the kinds of any packed list gives the list and ends at the end |
| DataPack.PutTight | sourcemod/core/CDataPack.cpp:96-107 | m_size is the length of what was written if and only if packing appends; packing after Reset makes it too large |
| DataPack.TightSafe | sourcemod/core/CDataPack.cpp:161-259 | where m_size is right no read of a cell, float or block leaves what was written, nor does that of a string with a zero at the end of the pack |
| DataPack.PackedSafe | sourcemod/core/CDataPack.cpp:161-259 | reading back the kind that was packed is safe, whatever precedes or follows it |
| DataPack.ReadsExact | sourcemod/core/CDataPack.cpp:161-259 | reads of cells and blocks at every position up to the end of what was written stay within it if and only if m_size is not larger than that |
| DataPack.RunSafe | sourcemod/core/CDataPack.cpp:77-159 | after any sequence of writes and moves of the position they do so if and only if every write was made where m_size then stood |
| DataPack.RepackUnsafe | sourcemod/core/CDataPack.cpp:96-143 | a cell packed, Reset, a cell packed over it: m_size is 16 with 8 bytes written, and the next read of a cell passes its check and looks behind them |
| DataPack.CDataPack.CheckSize | sourcemod/core/CDataPack.cpp:56-70 | doubling ends with enough room and preserves the content |
| DataPack.CDataPack.PackWord | sourcemod/core/CDataPack.cpp:96-120 | writes size and word at the position |
| DataPack.CDataPack.PackString | sourcemod/core/CDataPack.cpp:122-138 | writes length, characters and zero at the position |
| DataPack.CDataPack.PackMemory | sourcemod/core/CDataPack.cpp:77-94 | writes size and block at the position and returns where it began |
| DataPack.CDataPack.PackAll | sourcemod/core/CDataPack.cpp:77-138 | packing a list appends its encoding and keeps m_size right |
| DataPack.CDataPack.Reset | sourcemod/core/CDataPack.cpp:140-143 | the position alone goes back to the start |
| DataPack.CDataPack.ReadCell | sourcemod/core/CDataPack.cpp:161-195 | reads as specified and moves only the position, whenever the read is safe, also in a pack written to again after Reset |
| DataPack.CDataPack.ReadString | sourcemod/core/CDataPack.cpp:202-227 | reads as specified and moves only the position, whenever the read is safe |
| DataPack.CDataPack.ReadMemory | sourcemod/core/CDataPack.cpp:234-259 | reads as specified and moves only the position, whenever the read is safe |
| DataPack.CDataPack.ReadList | sourcemod/core/CDataPack.cpp:161-259 | reading the kinds of a packed list through the class gives the list and ends at m_size; no read fails or leaves what was written |
| DataPack.PackAndRead | sourcemod/core/CDataPack.cpp:56-259 | packing any list into a fresh pack, Reset, and reading the same kinds returns the list |
| TimerInv.EnterCore | sourcemod/core/TimerSys.cpp:245-396 | calling a listener for an idle timer keeps lists, flags, ends and the order of the one-shot list |
| TimerInv.RetireCore | sourcemod/core/TimerSys.cpp:366-368 | moving a timer whose end was called from its list to the free stack keeps them |
| TimerInv.CreateCore | sourcemod/core/TimerSys.cpp:290-335 | creating a timer from the free stack or anew keeps them |
| TimerInv.InsertOk | sourcemod/core/TimerSys.cpp:312-331 | the insertion keeps the one-shot list sorted by time, which RunFrame's early exit relies on, and without duplicates |
| TimerRuns.ApplyInv | sourcemod/core/TimerSys.cpp:245-427 | every call, also one made inside a listener or for a timer object that was retired, and every return of a listener keeps the invariant, but for a RemoveMapChangeTimers within one |
| TimerRuns.DrainLoopInv | sourcemod/core/TimerSys.cpp:422-426 | the loop of RemoveMapChangeTimers keeps it, though a timer on its stack may meanwhile be retired or created anew |
| TimerRuns.RunInv | sourcemod/core/TimerSys.cpp:245-427 | every run in which RemoveMapChangeTimers is not called from within itself keeps the invariant |
| TimerNested.DoomedStays | sourcemod/core/TimerSys.cpp:399-427 | once it has been, some activation stays suspended whatever happens |
| TimerRuns.DoomedExactly | sourcemod/core/TimerSys.cpp:399-427 | a run is in that condition if and only if it made such a call |
| TimerRuns.RestsFlat | sourcemod/core/TimerSys.cpp:399-427 | so a run all of whose calls have returned made none |
| TimerRuns.FaultExactly | sourcemod/core/TimerSys.cpp:398-427 | a run that has ended, every call returned or an empty stack popped, is free of the fault if and only if it made none |
| TimerRuns.OneList | sourcemod/core/TimerSys.cpp:245-427 | after every run whose calls have all returned, and at every point of one without a nested RemoveMapChangeTimers, each timer object is in exactly one of one-shot list, repeat list and free stack, once, and no empty stack was popped |
| TimerRuns.EndOnce | sourcemod/core/TimerSys.cpp:245-427 | of the same runs: OnTimerEnd is called at most once per creation, and with no call under way exactly for the creations that are no longer current |
| TimerRuns.NestedMapChangeFaults | sourcemod/core/TimerSys.cpp:398-427 | a run in which RemoveMapChangeTimers, called from within itself, pops an empty stack |
| TimerDue.OnlyDue | sourcemod/core/TimerSys.cpp:245-288 | in every run without a nested map change, the timer that RunFrame is calling, one-shot or repeating, had its time at or before that of the frame |
| TimerDue.TickPasses | sourcemod/core/TimerSys.cpp:250-267 | a frame begins with the first one-shot timer if it is due; if it passes on to the repeating timers no one-shot timer is due |
| TimerDue.SinglePasses | sourcemod/core/TimerSys.cpp:250-267 | after a one-shot timer has ended it is out of its list and the next one due is called; when RunFrame passes on, the one-shot timers that are due are just those put in front of it while it was called |
| TimerDue.NoneLeft | sourcemod/core/TimerSys.cpp:250-267 | so none is due then if and only if the last one called stood first in the list |
| TimerDue.LeftInFront | sourcemod/core/TimerSys.cpp:250-333 | a run in which a listener makes a one-shot timer for that very moment, which is put in front of its own and left out of the frame |
| TimerDue.LoopCalls | sourcemod/core/TimerSys.cpp:269-287 | the loop over the repeating timers calls the first one due from where it stands, and comes to rest if there is none |
| TimerDue.LoopPasses | sourcemod/core/TimerSys.cpp:269-287 | after a repeating timer was called it ends if it was killed or asked for that, else stays with its next time, one interval after the last unless that is more than a tenth of a second ago, then one interval from now; the loop goes on with what stands behind it |
| TimerDue.FiredAgain | sourcemod/core/TimerSys.cpp:335-369 | FireTimerOnce puts the next time of a repeating timer off by its interval if asked to and else leaves it; a timer that is not repeating, was killed or asks to stop ends |
| TimerMaps.FlaggedGo | sourcemod/core/TimerSys.cpp:398-427 | when RemoveMapChangeTimers has returned, every timer that was live and flagged at the call has ended, or is marked to end with the call it is in, whatever the listeners did, but for a map change within it |
| TimerMaps.FlaggedExactly | sourcemod/core/TimerSys.cpp:398-427 | what is still to be killed stays flagged, step by step, unless and only unless a timer that is not flagged is created in an object that is still to be killed |
| TimerMaps.OnlyFlagged | sourcemod/core/TimerSys.cpp:398-427 | in runs without that the loop kills flagged timers only |
| TimerMaps.UnflaggedGoes | sourcemod/core/TimerSys.cpp:298-427 | a run with that, in which the map change ends a timer that is not flagged and was made after it began |
| TimerSystem.TimerLists.CreateTimer | sourcemod/core/TimerSys.cpp:290-335 | the lists in place give the specified state and keep the invariant |
| TimerSystem.TimerLists.InsertTimer | sourcemod/core/TimerSys.cpp:312-331 | the loop inserts before the first that is not earlier |
| TimerSystem.TimerLists.CollectMapTimers | sourcemod/core/TimerSys.cpp:404-420 | the two loops push exactly the flagged timers, in order |
| DatabaseRuns.ApplyAt | sourcemod/core/Database.cpp:318-668 | no step of either thread moves an operation out of its one place, skips its thread part, or runs or destroys it twice |
| DatabaseRuns.ApplyThreads | sourcemod/core/Database.cpp:541-552 | there is one pending thread for each queued operation, but for one that is just being added |
| DatabaseRuns.RunInv | sourcemod/core/Database.cpp:318-668 | every interleaving, identities dropped within a drop included, keeps these |
| DatabaseRuns.EachOnce | sourcemod/core/Database.cpp:496-668 | in every interleaving an accepted operation is in exactly one of queue, worker, think queue, a running loop or destroyed; its thread part runs at most once and before its think or cancel part, and that at most once and before its one destruction |
| DatabaseRuns.ThreadFindsOp | sourcemod/core/Database.cpp:597-602 | RunThread never finds the queues empty |
| DatabaseBlock.GuardRefuses | sourcemod/core/Database.cpp:511-514 | the block is on the identity of every drop under way if and only if AddToThreadQueue refuses all of them |
| DatabaseBlock.BlockSurvives | sourcemod/core/Database.cpp:635-667 | a step takes the block away if and only if it begins the drop of another identity within a drop, or ends a drop within a drop |
| DatabaseBlock.KeptExactly | sourcemod/core/Database.cpp:633-668 | so it holds throughout a run if and only if no step of the run is one of these |
| DatabaseBlock.RunBlocked | sourcemod/core/Database.cpp:633-668 | then nothing of an identity being dropped is queued, in the worker or in the think queue once the worker has stopped, but what the loop has set aside |
| DatabaseBlock.DisturbsExactly | sourcemod/core/Database.cpp:511-514 | while a drop has the block, a step takes it from that drop if and only if it begins the drop of another identity or ends a drop above it |
| DatabaseBlock.ShieldStep | sourcemod/core/Database.cpp:633-668 | any other step keeps, for that drop, that nothing of its identity is queued, in the worker or in the think queue once the worker has stopped, but what loops have set aside |
| DatabaseDrop.DropDone | sourcemod/core/Database.cpp:633-668 | if no other drop begins or ends within it, then when OnSourceModIdentityDropped returns an operation of the identity is destroyed, or has called what is still under way, if and only if no loop under way at the call had set it aside; think parts may have tried to queue more |
| DatabaseDrop.DropLeavesNothing | sourcemod/core/Database.cpp:633-668 | so it leaves nothing of the identity behind if and only if no loop under way at the call had set an operation of it aside |
| DatabaseDrop.OutsideLoops | sourcemod/core/Database.cpp:633-668 | so it is for a call from outside the loops of RemoveDriver and OnSourceModIdentityDropped; called from the top level, every operation of the identity is destroyed once |
| DatabaseDrop.SetAsideRemains | sourcemod/core/Database.cpp:349-371 | RemoveDriver has set two operations of an identity aside and the first one's cancel part drops the identity: when that returns, the second is neither destroyed nor begun and its loop still has it |
| DatabaseBlock.NestedDropFails | sourcemod/core/Database.cpp:635-667 | a run in which the think part of an operation of one identity drops another and then queues an operation for its own: it is accepted, and still queued when the drop returns |
| DatabaseOrder.DropTakes | sourcemod/core/Database.cpp:633-656 | when the worker has stopped for the drop of an identity, the loop sets aside exactly the operations of that identity; those of other identities stay in the think queue, and both keep their order |
| DatabaseOrder.RemoveTakes | sourcemod/core/Database.cpp:338-361 | RemoveDriver does the same by driver |
| DatabaseOrder.LoopsTakeTheirOwn | sourcemod/core/Database.cpp:338-668 | in every interleaving the loop of a drop has set aside and calls operations of its identity only, that of RemoveDriver operations of its driver only |
| DatabaseOrder.FirstInFirstOut | sourcemod/core/Database.cpp:496-602 | in every interleaving the operations of one priority leave their queue in the order in which they were accepted, and the rest is in it in that order |
| DatabaseOrder.RanAsTaken | sourcemod/core/Database.cpp:586-606 | their thread parts run in the order in which they were taken |
| DatabaseOrder.FrameTakesFirst | sourcemod/core/Database.cpp:611-626 | RunFrame calls, of the operations in the think queue, the one whose thread part ran first, and these ran in the order of the queue |
| DatabaseManager.DBManager.SetAside | sourcemod/core/Database.cpp:349-361 | the erasing loop splits the think queue as specified, in order |
| DatabaseManager.DBManager.SetAsideOwned | sourcemod/core/Database.cpp:644-656 | nothing of the identity stays in the queue, nothing of another identity is taken from it, nothing is lost or duplicated, and the order is kept in both |
| DatabaseManager.DBManager.SetAsideDriven | sourcemod/core/Database.cpp:349-361 | the same for a driver |

## Left out

- HandleExact.FreeExact: is about the bookkeeping; which memory the second unlink damages in the stale case is not followed further.
- HandleFree.ReleaseKeeps: says nothing of the chains when a freed original's owner still resolves, which is the second unlink; HandleLevel.ReleaseGround says what is kept then.
- HandleDeath.FreeChainKeeps: assumes more than HandleLinks.IdentityReleased, which follows from it: that the identity's own freed originals keep a clone too.
- HandleDeath.IdentityDies: the same.
- HandleLinks.IdentityReleased: that the left-over links are tame is sufficient; HandleStrays has a run in which they are not, but a loop that strays may by chance do no harm.
- HandleLinks.LoopIsChain: the same.
- HandleDying.DeathExact: says nothing where the left-over links are not tame and the loop may stray.
- HandleSweep.SweepStep: assumes that no freed original of the type has an owner that resolves; HandleRemoval does without.
- HandleSweep.TypeRemoved: the same; the condition is exact by HandleRemoval.RemovalExact.
- HandleRuns.RunKeeps: the steps are sound, and owners are identities; soundness is exact by HandleLosses.StepExact for regular systems.
- HandleRuns.Reachable: the same.
- HandleSystem.HandleSystem.CreateHandle: the type exists and the caller may create it (400-424).
- HandleSystem.HandleSystem.CloneHandle: the caller has clone access (607-610).
- HandleSystem.HandleSystem.ReadHandle: the caller has read access.
- HandleSystem.HandleSystem.FreeHandle: the caller has delete access, is_destroying is absent, and an identity is released under the condition of HandleLinks.IdentityReleased.
- HandleSystem.HandleSystem.FreeOwned: under that condition, without which the loop may stray.
- HandleSystem.HandleSystem.ReleaseIdentity: under that condition.
- HandleSystem.HandleSystem.RemoveType: on one type that is not an identity type; the descent to child types and the table of names are absent.
- Handles: type creation and TryAndFreeSomeHandles, which unloads plugins, are absent, and destructors do not call the handle system again. An owner that does not resolve is handled as in the release build, without the assertion.
- SmcWindow.ShortTextOk: is for short texts; SmcRoom.RoomyOk is for any.
- SmcRoom.RoomyOk: between 4093 and 4095 characters it depends on where the last character read stands whether the window serves the text.
- SmcParser.Parser.ParseStream: Loop says nothing (Lost) when a read overwrites a string that began or ended in what it overwrites, a callback's characters, or one still to be parsed.
- SmcMachine: a string that a brace ends without an end pointer (TextParsers.cpp:566-574, 598) is handed over as None, since what is shown then depends on what follows in the buffer.
- SMC parser: byte order marks, characters above 127, the pStates parameter, files; eol_comment is written and never read. The two FixupString arguments are evaluated in either order.
- Extensions: all are loaded and QueryInterfaceDrop is a fixed predicate; plugins, native bindings, global listeners and the interface list are absent.
- Admin cache: identities, passwords, immunity, command overrides, targeting and flag letters. The arena hands out fresh indices and keeps admins, groups and tables apart; the name index is a map.
- AdminRuns.GroupGone: effective flags are related to the groups only where InvalidateGroup recomputes them; SetGroupAddFlag and SetAdminFlags change one side alone, so they are not equal in general.
- MenuManager.MenuStates.RenderPage: the items of the page and the paging state; drawing them into slots and controls, disabled items and menus without pagination are absent.
- MenuManager.MenuStates.FinishPage: the same.
- Menus: ExitBack is off, and which items can be drawn is a fixed pattern.
- PhraseBounds.EscapedExpands: one way only for all texts, both ways for those of EscapedExact. The code's escapes test for the control characters, not for letters; an unknown one copies two characters, as its comment says, and then drops the one after them.
- PhraseBounds.EscapedExact: in a text whose unknown escapes hide another backslash, or whose braces open parameters, it depends on what is before whether the reader comes to the offending backslash at all.
- PhraseFile.ReadParam: an entry behind the array is excluded; PhraseParams.ParamsExact says for which lists that cannot be.
- PhraseFile.Translate: texts that look behind the array are excluded in the same way.
- PhraseFile.Phrase.ReadTranslation: the same.
- Phrases: characters above 127, language lookup and warnings; strings and memory tables are values.
- DataPack.CDataPack.ReadCell: a read of bytes that were never written is excluded (DataPack.Safe); by DataPack.RunSafe it can be asked for exactly when a write was made before the end, after Reset or SetPosition.
- DataPack.CDataPack.ReadString: the same, and a zero byte has to follow, because the code takes the length before it checks the bounds.
- DataPack.CDataPack.ReadMemory: the same as for ReadCell.
- Data packs: size_t is four bytes, least first, and floats are opaque words; ResetSize is absent, and the position is moved only to where something has been written.
- TimerRuns.ApplyInv: a RemoveMapChangeTimers within one breaks the invariant, exactly by TimerRuns.DoomedExactly.
- TimerRuns.RunInv: the same; the runs it leaves out never come to rest.
- TimerRuns.OneList: says nothing of a run that is stuck, or under way to it.
- TimerRuns.EndOnce: the same.
- Timers: RunFrame is not entered again, and callers name timer objects that exist. Times are reals; the hooks of game frames and map changes are absent.
- Database queue: the worker's Stop(false) drains its jobs, and a likely queue is one that is not empty; drivers' thread safety, OnPluginUnloaded and the configuration are absent. That every operation is eventually run is not claimed.
- DatabaseDrop.DropDone: a drop within which another begins or ends is left to DatabaseBlock.NestedDropFails.
- DatabaseManager.DBManager.SetAside: the loops over the think queue are the part modelled in place; adding, running and stopping, which two threads share, are the steps of DatabaseMachine.
- Forwards, console variables, sound, user messages, plugins and the script machine.
