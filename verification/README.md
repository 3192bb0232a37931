# A model of an IRC server's channel, rule, queue and address code

The files model four parts of the server in `ircd/` and prove what they are for.

**Channels** (`ircd/channel.c`). `Masks.dfy` holds masks with `*`, `?` and escapes: when a mask matches a
string, when one covers another, the loop that decides it, and `collapse`; `StringMatch.dfy` is `match`,
which reads backslashes in its own way. `BanList.dfy` and `BanId.dfy` are the two ways a ban reaches the
list: the two passes of a MODE command, whose stack slots are appended to the real list and unpicked
afterwards, with the limits on its size in `BanLimit.dfy`, and `add_banid`. `SimpleModes.dfy` is the accumulation of modes without argument,
`ModeBuffer.dfy` the meaning of the buffer that packs changes into MODE lines, `ModeMeaning.dfy` what those
who read the lines then know, and `ModeBufferCode.dfy` its loops over the six slots. `MemberMatrix.dfy` says what joining, leaving, kicking and quitting mean on plain
lists; `MemberLinks.dfy` is the structure of doubly linked membership links that does it, with its free
list and counters. `Invites.dfy`, `Burst.dfy` and `PrettyMask.dfy` are invitations, the burst of a channel
to a new server, and canonical masks.

**Connection rules** (`ircd/crule.c`). `Crule.dfy` has scanner, parser and evaluator as functions,
`CruleGrammar.dfy` the documented grammar with its meaning, `CruleLenient.dfy` what is accepted beyond it,
`CrulePrint.dfy` the printer and `CruleParser.dfy` the routines themselves. Rule functions are an arbitrary
valuation.

**Byte queues** (`ircd/dbuf.c`): `DBuf.dfy` says what the calls mean, `DBufCode.dfy` is the chunks linked
into queues and a free list. **Connections per address** (`ircd/IPcheck.c`): `IpRegistry.dfy` says what the
calls mean, `IpRegistryCode.dfy` is the chained hash table. `LinkedLists.dfy` is shared by the linked
structures, `Common.dfy` by all.

Where the server changes things step by step the model has classes and methods with loops, each proved
against a function of the old state; the lemmas are about those functions. Time, random choices, features
and what other servers send are parameters. In the membership, queue and registry code every field of a C
struct is a map from addresses, so that aliasing and relinking are as in the original.

## Where the code differs from what is said of it

- Text comparison folds `\` to the vertical bar, which `mmatch` does not when the backslash escapes a
  wildcard. Two masks may thus be equal and not cover each other (`Masks.SameTextCovers`), and such a +b is
  lost (`BanList.TwinRequestIsLost`).
- `match` skips a backslash before any character, lets an escaped `?` match anything, passes over a place
  when an escape follows a star, and takes an escaped star at the end for a wildcard. Covering is therefore
  sound for it among masks without these (`StringMatch.Regular`, `StringMatch.CoversIsSoundForMatch`); on masks
  without the last two it is faithful exactly if no backslash is stray (`StringMatch.TameIsFaithful`), and each
  clause is needed (`StringMatch.BackslashIsLost`, `StringMatch.EscapeAfterStarIsMissed`,
  `StringMatch.EscapedStarAtEndIsWild`), and a ban can be lost for it (`BanList.BackslashBanIsLost`).
- `-b x +b x` in one command loses the ban (`BanList.ReAddingADeletedBanIsLost`);
  `BanList.AddMeansSequential` and `BanList.DelMeansSequential` say exactly when a request has its usual
  meaning.
- All limits of one flush share one text buffer (`ModeBuffer.LimitsShareText`,
  `ModeBuffer.ServerLimitsShareText`, `ModeBuffer.TwoLimitsMixedUp`).
- A bounced `-l` should carry the old limit according to the comment at ircd/channel.c:2802-2805; it never
  does, since a limit taken away has no slot (`ModeBuffer.BounceReadBack`).
- `sub1_from_channel` is documented to return whether the channel still exists; it does exactly when the
  channel is not persistent or others are left (`MemberMatrix.StaysOrGoes`, `MemberMatrix.PersistentStays`).
- `dbuf_flush` is documented to return the bytes of the first block; it returns the length of the queue,
  which is that exactly when at most one chunk is left (`DBuf.FirstBlockIsAll`, `DBuf.FirstBlockIsNotAll`).
- A remote client at the counter's limit resets the count to zero (`IpRegistry.RemoteOverflowForgets`).
- The clone throttle is meant to be off just after a restart; the code has it on only then
  (`IpRegistry.LocalRefusedExactly`).
- A failed registration is meant to undo what the connection did to the count of attempts; when it does is
  `IpRegistry.FailUndoesConnect`, and `IpRegistry.FailAfterBurstGoesRound` a run where it does the opposite.
- The rule parser accepts more than its grammar, such as `&&` in front (`CruleGrammar.LeadingAndAccepted`).
  Which accepted rules can be evaluated is `CruleLenient.AcceptedHasNoNull`; the other results are about the
  grammar's sentences.

## Model

| member | source | states |
|---|---|---|
| Masks.CoversIsSound | ircd/match.c:47-63 | If one mask covers another, it stands for every string the other stands for, in the documented reading of masks |
| Masks.MaskCoversIsSound | ircd/match.c:47-63 | The same for masks as text, after reading escapes and folding case |
| Masks.CoversIsComplete | ircd/match.c:47-63 | The converse, where the first mask has no `?` or the second no `*`: then covering is inclusion |
| Masks.CoversIsNotComplete | ircd/match.c:55-58 | Elsewhere the converse fails: `?*` stands for whatever `*c` stands for and does not cover it |
| Masks.CoversTransitive | ircd/match.c:64-163 | Covering is transitive, which refusing a ban without touching the list depends on |
| Masks.MaskCoversTransitive | ircd/match.c:64-163 | The same for masks as text |
| Masks.CoversReflexive | ircd/match.c:64-163 | Every mask covers itself |
| Masks.MMatch | ircd/match.c:64-163 | The loop of `mmatch` with its two fallback positions, on any two masks: it decides covering by the first mask with a star added where that ends in a star and `?`; covering itself for a collapsed one; and never more than inclusion |
| Masks.CollapseKeepsLanguage | ircd/match.c:246-304 | Moving `?` before `*` and merging `*` changes no language |
| Masks.CollapseCorrect | ircd/match.c:263-304 | `collapse` yields a collapsed mask with the same language |
| Masks.SameTextCovers | ircd/ircd_string.c:223-234 | Masks that `ircd_strcmp` calls equal cover each other if and only if both or neither have a backslash before every wildcard, for `\` folds to the vertical bar; otherwise neither covers the other |
| StringMatch.MatchIsLanguage | ircd/match.c:186-243 | On a mask that is tame and has no stray backslash `match` decides its language, an escaped `?` standing for any character |
| StringMatch.TameIsFaithful | ircd/match.c:186-243 | Where no escape follows a star and no escaped star ends the mask, `match` decides the language for every string if and only if no backslash is stray: each stands before a wildcard, or before an escaped `?` |
| StringMatch.StrayIsUnfaithful | ircd/match.c:202-203 | Every mask with a stray backslash accepts a string that is too short for it |
| StringMatch.CoversIsSoundForMatch | ircd/match.c:47-63 | Among regular masks one that covers another matches every string the other matches |
| StringMatch.CollapseKeepsMatches | ircd/match.c:246-304 | `collapse` changes nothing for `match` if the mask is regular before and after |
| StringMatch.LiteralMaskIsItself | ircd/match.c:202-231 | A mask without wildcards matches exactly its own text if and only if it has no backslash |
| StringMatch.BackslashIsLost | ircd/match.c:202-203 | A backslash before another character: `a?b` covers `a\b`, which matches ab; `a?b` does not |
| StringMatch.EscapeAfterStarIsMissed | ircd/match.c:205-231 | An escape right after a star: coming back from the end of the mask skips one place |
| StringMatch.EscapedStarAtEndIsWild | ircd/match.c:209-226 | An escaped star at the end is taken for a wildcard |
| StringMatch.Match | ircd/match.c:186-243 | The loop of `match` |
| BanList.ParsePassKeepsMarked | ircd/channel.c:3918-4007 | One +b or -b in the first pass keeps the marks consistent: dead entries are covered by live ones, slots last, no slot with the text of an entry before it |
| BanList.AddMeansSequential | ircd/channel.c:3918-4007 | A +b leaves the live masks as adding it at once would, if and only if a live mask covers it, or no entry has its text and no entry not marked for deletion covers it |
| BanList.DelMeansSequential | ircd/channel.c:3962-3977 | A -b leaves the live masks as deleting its text at once would, if and only if it gets at every live entry with that text: after the first argument it stops at the first |
| BanList.DelReachesAll | ircd/channel.c:3962-3977 | On a list without two equal texts it always does |
| BanList.CommandKeepsTextsDifferent | ircd/channel.c:3918-4232 | Commands never make a list with two equal texts out of one without |
| BanList.AddingIsUnhindered | ircd/channel.c:3918-4007 | As long as a run only adds, a +b is hindered if and only if an entry has its text with other escapes and no live mask covers it |
| BanList.RunMeansSequenceExactly | ircd/channel.c:3918-4007 | After each of its requests a run has the effect of the requests one at a time, if and only if none is hindered |
| BanList.ProcessBalances | ircd/channel.c:4125-4232 | The second pass conserves masks: what is listed and what is announced balance for every mask |
| BanList.ProcessKeepsLive | ircd/channel.c:4125-4232 | Without bounce the result is made of live entries, all of them if and only if the size limit fires for none; when it fires is BanLimit.CommandFills |
| BanList.ProcessLeavesNoMarks | ircd/channel.c:4125-4232 | After the second pass no entry is a stack slot or carries a mark |
| BanList.ProcessUnset | ircd/channel.c:4125-4232 | Without MODE_PARSE_SET the second pass lists the real entries as they were |
| BanList.CommandKeepsAntichain | ircd/channel.c:3918-4232 | After any run of +b and -b an antichain is still an antichain, with no slot and no mark left in it |
| BanList.CommandMeansSequence | ircd/channel.c:3918-4232 | If no request is hindered, the resulting set of masks is that of the requests one at a time if and only if no size limit fires; the limits are in BanLimit.CommandBounded and BanLimit.DroppedOnlyWhenFull |
| BanList.RoomForAllIsEnough | ircd/channel.c:4191-4198 | No limit fires if there is room even with every request added and nothing deleted |
| BanList.AddingCommandMeansUnion | ircd/channel.c:3918-4232 | A run that only adds, without twins and with no limit firing, bans exactly the strings banned before and those of the requested masks, as `match` reads regular masks |
| BanList.AddingWithRoomMeansUnion | ircd/channel.c:3918-4232 | In particular when there is room for everything |
| BanList.ReAddingADeletedBanIsLost | ircd/channel.c:3962-4007 | `-b a +b a` in one command loses the ban |
| BanList.TwinRequestIsLost | ircd/channel.c:3985-3993 | A +b whose text is there with another escape is dropped as a duplicate, and its strings stay unbanned |
| BanList.BackslashBanIsLost | ircd/channel.c:3994-3998 | A ban with a backslash gives way to one that covers it and does not match its strings |
| BanList.CommandDeltas | ircd/channel.c:4134-4228 | The announced changes are disjoint, name no mask twice, and turn the old set of masks into the new one |
| BanList.CommandNotApplied | ircd/channel.c:4134-4228 | Without MODE_PARSE_SET the list of masks comes back unchanged, in order |
| BanLimit.CommandFills | ircd/channel.c:4125-4232 | An applied command leaves the real bans it does not delete and takes up the new ones, each if the whole list with it keeps within MAXBANS and within AVBANLEN times MAXBANS characters |
| BanLimit.CommandBounded | ircd/channel.c:4191-4198 | For every antichain a local user's command leaves at most as many bans and characters as there were or as the limits allow; with any new ban on the list both limits hold |
| BanLimit.DroppedOnlyWhenFull | ircd/channel.c:4191-4205 | A ban that the requests one at a time would list, and that is not listed, was asked for by a local user, and the list with it would pass one of the two limits |
| BanLimit.CommandAnnouncesAlike | ircd/channel.c:4134-4228 | A command that is not applied announces what it would if it were applied without a limit, and by BanList.CommandDeltas that is the change it stands for |
| BanList.ParseState.ParseBan | ircd/channel.c:3918-4007 | The first pass on the real list with its appended slot does what the specification says |
| BanList.ParseState.ProcessReal | ircd/channel.c:4150-4205 | An entry of the real list is kept or deleted in place and announced |
| BanList.ParseState.ProcessSlot | ircd/channel.c:4160-4228 | A slot is put in front of the list and announced, or dropped when overlapped or over a limit |
| BanList.ParseState.ProcessBans | ircd/channel.c:4125-4232 | The second pass with its cut list and pointers yields the specified list and announcements |
| BanList.ParseState.Command | ircd/channel.c:3918-4232 | Both passes as `mode_parse` drives them |
| BanId.ScanRefusal | ircd/channel.c:470-525 | A mask covered by the list is refused and the list comes back as it was, although removals may come before the refusal |
| BanId.ScanPasses | ircd/channel.c:470-525 | Otherwise exactly the masks the new one covers are taken out |
| BanId.AddBanMeaning | ircd/channel.c:445-547 | `add_banid` refuses exactly when the mask is covered or the limits are exceeded, and then changes nothing; otherwise the list is an antichain with the new mask in front and exactly the covered ones gone |
| BanId.AddBanBounded | ircd/channel.c:509-515 | For a user: an uncovered mask is refused exactly when it replaces nothing and the list with it would pass MAXBANS bans or the allowed characters; no call makes a list longer than it was and MAXBANS; each mask removed is handed over |
| BanId.BanEditor.ScanList | ircd/channel.c:470-525 | The walk over the list with deletion in place |
| BanId.BanEditor.AddBanId | ircd/channel.c:445-547 | The whole operation, with the removed bans put aside |
| SimpleModes.BatchIsSequential | ircd/channel.c:4423-4460 | For every string of mode letters, applying the accumulated change once is obeying the letters one at a time; no mode is both added and deleted and no pair is added together |
| SimpleModes.StepIsSwitch | ircd/channel.c:4435-4455 | One letter, with +s and +p, +c and +S taking each other away |
| SimpleModes.PairsStayExclusive | ircd/channel.c:4439-4454 | Neither pair is ever set together if it was not before |
| SimpleModes.OnlyGrantedChange | ircd/channel.c:4571-4700 | A mode the sender may not change is never set, and goes only when a granted rival is set |
| SimpleModes.AnnouncesDifference | ircd/channel.c:4749-4763 | A fresh buffer gets exactly the difference between old and new modes |
| SimpleModes.DifferenceIsSmallest | ircd/channel.c:4749-4763 | No announcement with the same effect names fewer modes |
| SimpleModes.AnnouncementsCompose | ircd/channel.c:2948-2969 | A buffer shared by several commands still leads from the first state to the last and names no mode twice |
| SimpleModes.LettersAgree | ircd/channel.c:2537-2565 | Every mode is read from the letter a flush prints for it and from no other letter, and a flush has those letters and `l` only |
| SimpleModes.PrintedIsObeyed | ircd/channel.c:2611-2617 | For every two states of the channel, the second without a pair: what a flush prints for the change, read back from the first with all changes granted, gives the second |
| SimpleModes.AnnouncementReplays | ircd/channel.c:4468-4772 | So what any command announces gives its own result to everybody who knew the old modes |
| SimpleModes.PassedOver | ircd/channel.c:4565-4705 | A letter no mode has, or whose mode the sender may not change, makes no difference wherever it stands |
| SimpleModes.FlagBuf.Mode | ircd/channel.c:2948-2969 | The last word on a mode counts |
| SimpleModes.ParseState.ParseMode | ircd/channel.c:4423-4460 | One letter in place, and both assertions at the end of the routine |
| SimpleModes.ParseState.ParseLetters | ircd/channel.c:4565-4705 | The loop over the letters |
| SimpleModes.ParseState.Finish | ircd/channel.c:4740-4772 | The end of `mode_parse`: announce, and set if told to |
| SimpleModes.ModeCommand | ircd/channel.c:4468-4772 | A whole command: the modes become those of the letters obeyed one at a time, the announcement is the smallest |
| ModeBuffer.SplitConserves | ircd/channel.c:2622-2692 | Every slot goes on the line or is saved, never both |
| ModeBuffer.ReadUndoesPrint | ircd/channel.c:2514-2527 | Letters and parameters of one sign can be read back into the changes |
| ModeBuffer.MessageRoundTrip | ircd/channel.c:2781-2786 | So can a whole message |
| ModeBuffer.UsersReadBack | ircd/channel.c:2699-2787 | Users can read back every change a flush announces |
| ModeBuffer.ServersReadBack | ircd/channel.c:2789-2881 | So can servers, the order to deop the source included; what they know then is ModeMeaning.MessageMeansExactly |
| ModeBuffer.BounceReadBack | ircd/channel.c:2802-2862 | A bounced line can be read back if and only if it does not restore a limit; the comment promises the limit's number, the code never sends it |
| ModeBuffer.LimitsShareText | ircd/channel.c:2673-2747 | The message to users shows every limit with its own number if and only if each limit set on it has the number of the last one waiting, sent or not |
| ModeBuffer.ServerLimitsShareText | ircd/channel.c:2673-2835 | So does the message to servers, for the limits shown there: those set, in a bounce those taken away |
| ModeBuffer.TwoLimitsMixedUp | ircd/channel.c:2673-2686 | The limits 7 and 5 of one burst: both messages show 5 twice |
| ModeBuffer.FallingLimitsFit | ircd/channel.c:3256-3260 | Limits that never rise, as a command sets one and a burst skips higher ones, are charged for the text that is sent |
| ModeBuffer.UsersFit | ircd/channel.c:2585-2692 | The parameters users get fit in BUFSIZE-200 |
| ModeBuffer.ServersFit | ircd/channel.c:2602-2692 | So do those of servers, with the source to deop, but for the length of keys charged as hidden |
| ModeBuffer.FlushEndsExactly | ircd/channel.c:2904-2908 | The recursion of a full flush ends if and only if every argument is shorter than a line |
| ModeBuffer.DoKeepsRoomy | ircd/channel.c:2977-3036 | After every operation there is room for one more slot, so the six are never overrun |
| ModeBuffer.RunConserves | ircd/channel.c:2534-3045 | Over any run every argument queued is sent or waiting exactly once, and none waits after a flush |
| ModeBuffer.FlushAllConserves | ircd/channel.c:2904-2908 | A full flush loses nothing |
| ModeMeaning.MessageMeans | ircd/channel.c:2699-2881 | But for limits, a reader of one message - users by nick, servers by numeric, masks and keys by text - knows what the slots sent say, applied directly, removals first; in a bounce with the senses reversed and the source deopped |
| ModeMeaning.MessageMeansExactly | ircd/channel.c:2673-2881 | And exactly that if and only if the limit set last on the line, if any, is the last one waiting |
| ModeMeaning.SentIsHeard | ircd/channel.c:2534-3045 | Over every run from a fresh buffer the slots recorded as sent are those of the batches flushed, and what an audience hears from all the lines is what these batches say, applied directly one after the other |
| ModeMeaning.RunTells | ircd/channel.c:2534-3045 | Over every run that ends with a flush, however it was cut into lines: a fact that operations speak of, all alike, holds for the audience as they say, and any other as before; limits too if they all have one number |
| ModeBufferCode.ModeBuf.Simple | ircd/channel.c:2611-2617 | Letters of the modes without argument, in table order |
| ModeBufferCode.ModeBuf.ChargeSlot | ircd/channel.c:2629-2686 | One argument is charged or saved |
| ModeBufferCode.ModeBuf.Measure | ircd/channel.c:2619-2692 | The first loop: which arguments fit, their letters, and the shared limit text |
| ModeBufferCode.ModeBuf.UserParams | ircd/channel.c:2703-2748 | The second loop: parameters for users |
| ModeBufferCode.ModeBuf.ServerParams | ircd/channel.c:2806-2835 | The third loop: parameters for servers |
| ModeBufferCode.ModeBuf.SendServers | ircd/channel.c:2789-2881 | The line to servers, with the order to deop and the senses of a bounce |
| ModeBufferCode.ModeBuf.Pack | ircd/channel.c:2883-2902 | Saved arguments are packed down in place, the other slots cleared |
| ModeBufferCode.ModeBuf.FlushInt | ircd/channel.c:2534-2909 | A flush, once or until nothing waits |
| ModeBufferCode.ModeBuf.Mode | ircd/channel.c:2948-2969 | Modes without argument |
| ModeBufferCode.ModeBuf.Put | ircd/channel.c:2998-3036 | A mode with an argument fills a slot and flushes a full buffer |
| ModeBufferCode.ModeBuf.ModeUint | ircd/channel.c:2977-2994 | A limit taken away needs no slot |
| ModeBufferCode.ModeBuf.FlushBuf | ircd/channel.c:3042-3045 | Nothing waits afterwards |
| MemberMatrix.StepKeeps | ircd/channel.c:1493-1607 | Every join, part, kick and quit keeps member lists and channel lists in agreement, and leaves no channel that is not persistent to zombies alone |
| MemberMatrix.Run | ircd/channel.c:1493-1607 | The same over every run |
| MemberMatrix.StepDestroysExactly | ircd/channel.c:258-319 | A channel disappears in a step exactly when it is not persistent and its last link goes |
| MemberMatrix.StaysOrGoes | ircd/channel.c:253-276 | What `sub1_from_channel` returns says whether the channel still exists, if and only if the channel is not persistent or others are left |
| MemberMatrix.PersistentStays | ircd/channel.c:271-275 | The last member of a persistent channel: the result says destroyed, and the channel stays |
| MemberMatrix.DetachThenDestroy | ircd/channel.c:1588-1594 | Removing the zombies one after the other gets where destroying the channel at once would |
| MemberMatrix.QuitKeepsSafe | ircd/channel.c:1599-1607 | Leaving every channel keeps all others safe |
| MemberMatrix.KickKeepsSafe | ircd/channel.c:2455-2493 | A kick never leaves a channel to zombies alone, whichever way it is routed; whom it leaves on is MemberMatrix.KickLeavesZombie |
| MemberMatrix.KickLeavesZombie | ircd/channel.c:2455-2493 | After a kick the client is still on the channel exactly when the route does not remove it and the channel persists or another member is no zombie; then nothing but the mark has changed. If nobody but zombies would be left the channel is gone; removed at once is the same as a part |
| MemberMatrix.JoinAdds | ircd/channel.c:1493-1529 | A join adds the one pair, first on both lists and no zombie, and no other |
| MemberMatrix.PartRemoves | ircd/channel.c:1579-1597 | A part takes off the one pair, and the channel with all on it exactly when it does not persist and only zombies are left |
| MemberMatrix.LeaveRemoves | ircd/channel.c:1599-1607 | A quit takes the client off every channel; who else was on one still is, unless that channel went |
| MemberMatrix.Quit | ircd/channel.c:1599-1607 | The loop ends with the client on no channel and the lists in agreement |
| LinkedLists.PushChained | ircd/channel.c:1513-1523 | Linking in front keeps a doubly linked list well formed |
| LinkedLists.UnlinkChained | ircd/channel.c:1539-1553 | Unlinking anywhere keeps it well formed, and the head right |
| MemberLinks.JoinGood | ircd/channel.c:1497-1528 | A join keeps every row and column of links well formed, labelled and accounted for |
| MemberLinks.DetachGood | ircd/channel.c:1531-1562 | So does taking a link off both its lists |
| MemberLinks.JoinSane | ircd/channel.c:1493-1529 | A join keeps the counters equal to the lengths of their lists as well |
| MemberLinks.DetachSane | ircd/channel.c:1531-1562 | So does a removal, the channel's end included |
| MemberLinks.Network.Allocate | ircd/channel.c:1499-1505 | A link comes from the free list or is new, and is on no list |
| MemberLinks.Network.Hook | ircd/channel.c:1508-1527 | The assignments of a join, in order |
| MemberLinks.Network.AddUser | ircd/channel.c:1493-1529 | Joining does what the specification says |
| MemberLinks.Network.Unlink | ircd/channel.c:1536-1560 | The pointer assignments of a removal |
| MemberLinks.Network.Subtract | ircd/channel.c:258-319 | One user less; and exactly when the result says whether the channel is still there |
| MemberLinks.Network.RemoveMember | ircd/channel.c:1531-1562 | One link goes from both lists, the counters and, with the last, the channel; and exactly when the result says so |
| MemberLinks.Network.FindInChannel | ircd/channel.c:117-124 | The walk over the channel finds the link of the pair, or none |
| MemberLinks.Network.FindInUser | ircd/channel.c:129-137 | So does the walk over the user: the same link |
| MemberLinks.Network.FindMemberLink | ircd/channel.c:101-139 | Both branches return the one link of client and channel, and none exactly when the client is not on it |
| MemberLinks.Network.ChannelAllZombies | ircd/channel.c:1564-1576 | True exactly when the channel is not persistent and all its members are zombies |
| MemberLinks.Network.Sweep | ircd/channel.c:1588-1594 | The cascade ends and destroys the channel |
| MemberLinks.Network.RemoveUser | ircd/channel.c:1579-1597 | A part, with the cascade |
| MemberLinks.Network.RemoveUserFromAll | ircd/channel.c:1599-1607 | A quit |
| MemberLinks.Network.MakeZombie | ircd/channel.c:2455-2493 | A kick: zombie, or removed when ours, on the way back, or when only zombies are left |
| MemberLinks.Network.Create | ircd/channel.c:2314-2352 | A channel made without members joins the structure |
| Invites.Run | ircd/channel.c:2354-2408 | Over any run a user is on a channel's list exactly when the channel is on the user's, neither repeats, the counter is the length, and the limit holds |
| Invites.AddedKeeps | ircd/channel.c:2354-2381 | An invitation keeps that and puts the channel last on the user's list |
| Invites.InvitedAreMostRecent | ircd/channel.c:2363-2380 | After any run of invitations a user has the most recent distinct channels, up to the limit, in order: eviction takes the oldest |
| Invites.InviteLists.DelInvite | ircd/channel.c:2386-2408 | Both walks, and the counter |
| Invites.InviteLists.AddInvite | ircd/channel.c:2354-2381 | Delete, evict, push in front of one list and at the end of the other |
| Invites.InviteLists.ClearInvites | ircd/channel.c:277-283 | A channel that goes is on nobody's list |
| Burst.ReadUndoesText | ircd/channel.c:1894-1938 | The text of a message reads back into names, suffixes and bans |
| Burst.DecodeEntries | ircd/channel.c:1898-1920 | Names without a suffix inherit the modes of the name before, and so say each member's exact modes, because members without modes come first |
| Burst.ScheduleIsPermutation | ircd/channel.c:1877-1884 | The eight passes list every member exactly once |
| Burst.FillNicks | ircd/channel.c:1874-1924 | One line of names: what it decodes to and what is left make up what was to be listed; it fits |
| Burst.FillBans | ircd/channel.c:1926-1941 | One line's bans fit, and stop only at one that does not |
| Burst.OneMessage | ircd/channel.c:1843-1962 | One message |
| Burst.SendChannelModes | ircd/channel.c:1811-1966 | The loop ends; no message exceeds its room; together they decode to every member with its exact modes once, and every ban once, in order; so does the text of the lines, if no ban has a blank |
| PrettyMask.PrettyFits | ircd/channel.c:1974-2070 | Every mask becomes nick!user@host within NICKLEN, USERLEN, HOSTLEN and NUH_BUFSIZE |
| PrettyMask.PrettyIdempotent | ircd/channel.c:1974-2070 | A canonical mask stays as it is |
| PrettyMask.PrettyKeepsShort | ircd/channel.c:2040-2068 | Parts within the limits are kept |
| PrettyMask.SplitJoin | ircd/channel.c:169-175 | nick!user@host is split back into its parts |
| PrettyMask.DocumentedForms | ircd/channel.c:1974-1992 | The five forms a mask may be given in, and the parts they stand for |
| PrettyMask.KeepEndCovers | ircd/channel.c:2044-2068 | A part cut down to its end covers the part, also where the cut falls between a backslash and what it escapes |
| PrettyMask.PrettyCovers | ircd/channel.c:1993-2070 | The canonical mask covers the mask as given, unless the nick had to be cut |
| PrettyMask.Scan | ircd/channel.c:2005-2038 | The single pass finds the parts of the five documented cases |
| PrettyMask.PrettyInPlace | ircd/channel.c:1993-2070 | Cutting in the caller's buffer yields the canonical mask |
| Crule.GetToken | ircd/crule.c:354-409 | The scanner stops at the end or the first `:` and never passes it |
| Crule.ParseArgs | ircd/crule.c:703-753 | Arguments consume input and never pass the end |
| Crule.ParseOr | ircd/crule.c:470-523 | The parser ends on every input, by what is left of it and the level of the grammar |
| CruleGrammar.RuleParsed | ircd/crule.c:35-56 | Every rule of the documented grammar is parsed to the end, and the tree evaluates to the grammar's meaning under every valuation |
| CruleGrammar.OrTreeMeans | ircd/crule.c:317-347 | The left-nested tree means the right-recursive grammar: `!` before `&&` before `\|\|` |
| CruleGrammar.LeadingAndAccepted | ircd/crule.c:541-557 | A conjunction with `&&` in front of it is accepted, with a null operand |
| CruleLenient.AcceptedHasNoNull | ircd/crule.c:470-645 | Every accepted rule has a tree without null operands if and only if none of its tokens `&&` and or stands first, after an opening parenthesis, or after another of them |
| CruleLenient.AcceptedCallsAreRight | ircd/crule.c:653-753 | In every accepted rule `via` has two arguments, `directop` none, the other functions one; none is empty and all are shorter than 80 |
| CruleLenient.OrConsumes | ircd/crule.c:470-523 | What a disjunction consumes, and when its tree has a null operand |
| CrulePrint.ParseUndoesPrint | ircd/crule.c:797-836 | Parsing what `print_tree` prints gives back the identical tree |
| CrulePrint.PrintedIsRead | ircd/crule.c:797-836 | What is printed is a sentence of the grammar |
| CruleParser.Parser.NextToken | ircd/crule.c:354-409 | The scanner in place |
| CruleParser.Parser.GetWord | ircd/crule.c:417-429 | Words, cut at the longest |
| CruleParser.Parser.ArgList | ircd/crule.c:703-753 | Argument lists |
| CruleParser.Parser.Function | ircd/crule.c:653-695 | Calls, with the table and the arity |
| CruleParser.Parser.Primary | ircd/crule.c:592-645 | Negations, parentheses and calls |
| CruleParser.Parser.AndExpr | ircd/crule.c:531-584 | Conjunctions |
| CruleParser.Parser.OrExpr | ircd/crule.c:470-523 | Disjunctions |
| CruleParser.Parser.Run | ircd/crule.c:435-462 | The whole parser refines its specification and never passes the end |
| DBufCode.Pool.Alloc | ircd/dbuf.c:85-100 | The first chunk of the free list or, under the limit, a new one |
| DBufCode.Pool.Release | ircd/dbuf.c:105-111 | A chunk in use, on no list, goes in front of the free list |
| DBufCode.Queue.MallocError | ircd/dbuf.c:119-132 | A queue that cannot grow is emptied and its chunks freed |
| DBufCode.Queue.Hook | ircd/dbuf.c:191-194 | A chunk is hooked on behind `tail`, which then points to it |
| DBufCode.Queue.Put | ircd/dbuf.c:140-209 | All bytes are appended exactly when the chunks needed are to be had; otherwise the queue is left empty |
| DBufCode.Queue.Map | ircd/dbuf.c:218-232 | The first block, empty only for an empty queue |
| DBufCode.Queue.Delete | ircd/dbuf.c:238-269 | Bytes go from the front, as many as there are; `tail` is right again at the end |
| DBufCode.Queue.Get | ircd/dbuf.c:277-299 | The first bytes, removed |
| DBufCode.Queue.Flush | ircd/dbuf.c:305-332 | Ends of line go from the front; the result is the length of the first block, as documented, if and only if at most one chunk is left |
| DBuf.FirstBlockIsAll | ircd/dbuf.c:301-304 | A queue is as long as its first block if and only if it has at most one chunk |
| DBuf.FirstBlockIsNotAll | ircd/dbuf.c:301-332 | 2049 bytes: the queue is longer than its first block |
| DBuf.LinesComeBack | ircd/dbuf.c:343-391 | Whatever lines are put with CR LF behind each: the next one comes back without it, exactly when it is shorter than the room, and the others stay |
| DBufCode.Queue.GetMessage | ircd/dbuf.c:343-391 | The next line is a function of the flat bytes alone, however they are cut into chunks |
| DBufCode.Queue.FindLine | ircd/dbuf.c:353-378 | The search along the chain |
| DBufCode.SharedIsSpread | ircd/dbuf.c:85-111 | A call on one queue keeps every chunk on exactly one list |
| DBufCode.OnePlace | ircd/dbuf.c:85-111 | No chunk is on two queues, twice on one, or on a queue and free; the one at `tail` is the last |
| DBufCode.Run | ircd/dbuf.c:85-391 | Over any interleaving of calls on any number of queues each behaves as a first-in first-out sequence; their chains and the free list stay apart and hold every chunk ever made |
| DBufCode.Bounded | ircd/dbuf.c:85-100 | Allocated memory stays under BUFFERPOOL and one chunk; used and free chunks make up all |
| IpRegistry.RunCounts | ircd/IPcheck.c:253-489 | Over every run the count of an address is the clients let in less those that left, refusals and expiry included, as long as no remote client arrives at 65535 |
| IpRegistry.DoCounts | ircd/IPcheck.c:253-489 | The same for one call, and the exception exactly |
| IpRegistry.RemoteOverflowForgets | ircd/IPcheck.c:332-336 | One more remote client at 65535 sets the count to zero |
| IpRegistry.DoKeepsSmall | ircd/IPcheck.c:170-181 | Counters keep to their widths and stored free targets never exceed STARTTARGETS |
| IpRegistry.LocalRefusedExactly | ircd/IPcheck.c:263-301 | When a local client is turned away: the throttle acts only while the server is young, against the comment beside it |
| IpRegistry.OldServerThrottlesNobody | ircd/IPcheck.c:253-304 | Once the server has been up for the delay, the local clients turned away over any run are exactly those that meet a counter at its limit |
| IpRegistry.ThrottledByTheClock | ircd/IPcheck.c:253-304 | Over every run on a new address where nobody fails and the last does not leave, other addresses, bursts and expiry included: a local client is turned away exactly when others came before, the number that came in a row, by their clocks alone, is at least the limit, and the server is young and throttles |
| IpRegistry.SteadyRow | ircd/IPcheck.c:275-284 | Clients within the period of the one before are all in a row; after a longer pause the count begins again at 1 |
| IpRegistry.SteadyStreamThrottled | ircd/IPcheck.c:253-304 | In a steady stream client k is turned away exactly if k is at least the limit, but the first of all never |
| IpRegistry.LeaveAndReturn | ircd/IPcheck.c:412-432 | After the last client left, the next one counts from then, or begins at 1 if the other had stayed longer than the limit times the period |
| IpRegistry.ExpiryIsNotMissed | ircd/IPcheck.c:188-210 | Expiry changes the answer to no local client, if the period is at most the time entries are kept and the limit above 1 |
| IpRegistry.FailUndoesConnect | ircd/IPcheck.c:355-368 | A failed registration undoes what its connection did to the attempts, as documented, if and only if there were some within the period and fewer than 255 |
| IpRegistry.FailAfterBurstGoesRound | ircd/IPcheck.c:355-368 | With none, after a burst, the counter goes round to 255 and the next client is turned away |
| IpRegistry.TargetsReturn | ircd/IPcheck.c:170-181 | Every TARGET_DELAY seconds of rest give one target back, up to STARTTARGETS |
| IpRegistryCode.InsertSane | ircd/IPcheck.c:109-114 | Every entry stands in the bucket of its address, once, and off the free list, after an insertion |
| IpRegistryCode.RemoveSane | ircd/IPcheck.c:119-133 | The same after a removal at the head or after another entry |
| IpRegistryCode.Registry.Find | ircd/IPcheck.c:95-104 | The walk finds the entry of the address, or none exists |
| IpRegistryCode.Registry.Add | ircd/IPcheck.c:109-114 | Insertion |
| IpRegistryCode.Registry.FindPrev | ircd/IPcheck.c:124-131 | The walk to the entry before |
| IpRegistryCode.Registry.Remove | ircd/IPcheck.c:119-133 | Removal |
| IpRegistryCode.Registry.NewEntry | ircd/IPcheck.c:139-153 | A structure from the free list or a new one |
| IpRegistryCode.Registry.DeleteEntry | ircd/IPcheck.c:159-165 | Back to the free list |
| IpRegistryCode.Registry.UpdateTargets | ircd/IPcheck.c:170-181 | Free targets in unsigned arithmetic, then the cap |
| IpRegistryCode.Registry.ExpireEntry | ircd/IPcheck.c:188-210 | One entry expires, or loses its targets |
| IpRegistryCode.Registry.Expire | ircd/IPcheck.c:215-235 | Every entry of every bucket is looked at exactly once, while entries are removed |
| IpRegistryCode.Registry.LocalConnect | ircd/IPcheck.c:253-304 | A local connection |
| IpRegistryCode.Registry.RemoteConnect | ircd/IPcheck.c:315-353 | A remote connection |
| IpRegistryCode.Registry.ConnectFail | ircd/IPcheck.c:361-368 | A failed registration, in eight bits |
| IpRegistryCode.Registry.DisconnectIp | ircd/IPcheck.c:396-404 | One connection less, by address |
| IpRegistryCode.Registry.Disconnect | ircd/IPcheck.c:412-478 | A client leaves, with its targets |
| IpRegistryCode.Registry.Count | ircd/IPcheck.c:485-489 | The count |

## Left out

- Masks.MMatch: masks are sequences of tokens, read from text once.
- StringMatch.Match: a mask that ends in a backslash right after a star makes the original look past the end of the name; the model finds an end there.
- StringMatch.TameIsFaithful: exact for stray backslashes; for an escape after a star and an escaped star at the end there are the examples, since some such masks happen to behave.
- Masks.CoversIsComplete: some character has to be left that the first mask does not name.
- BanList.AddingCommandMeansUnion: masks without twins among each other, regular for `match`; BanList.TwinRequestIsLost and BanList.BackslashBanIsLost are what happens otherwise.
- BanList.ParseState.ParseBan: the cells of the list are positions in a sequence, and the number of stack slots, which a list with equal texts would upset, is not kept.
- BanList.ParseState.ProcessBans: `prevban` is a position in that sequence and a flag.
- BanList.ParseState.Command: extended bans, the bans' author and time, the limit of MAXPARA requests and the cached results of matching are not modelled; who may set bans is decided before.
- BanId.BanEditor.ScanList: `banp` is a position in a sequence; `next_ban` is not kept.
- Invites.InviteLists.AddInvite: the list blocks are elements of sequences, `tmp` a position.
- Invites.InviteLists.DelInvite: the same.
- BanId.BanEditor.AddBanId: the author, the time, the flag for address masks and the ban-valid bits of members are not kept.
- BanId.AddBanMeaning: no wipeout marks on the list, which suspend the antichain on purpose; the branch for them is in BanId.BanEditor.ScanList.
- SimpleModes.ParseState.ParseLetters: which letters a sender may use is a given set; letters with an argument are passed over here.
- SimpleModes.ParseState.Finish: clearing invitations and the removal of old modes in a burst are not modelled.
- SimpleModes.ModeCommand: one string of letters.
- ModeBuffer.UsersFit: the text of the limits is not longer than any of their numbers; so it is for limits that never rise (ModeBuffer.FallingLimitsFit), as those of commands and bursts do.
- ModeBuffer.DoKeepsRoomy: arguments shorter than a line, as nicknames, masks, keys and channel names are; longer ones would wait for ever.
- ModeMeaning.RunTells: a fact that operations speak of both ways is settled batch by batch (ModeMeaning.SentIsHeard), since a flush puts removals first and what does not fit waits.
- ModeMeaning.SentIsHeard: a bounce that restores a limit is out, as it cannot be read (ModeBuffer.BounceReadBack); limits are told right if in every batch the last one set is the last one waiting. Readers obey every change they read; what another server refuses is not modelled.
- IpRegistry.ThrottledByTheClock: registrations that fail and the last client of an address leaving are in IpRegistry.FailUndoesConnect and IpRegistry.LeaveAndReturn; attempts stop at 255.
- PrettyMask.PrettyCovers: a nick longer than NICKLEN is cut without a star, so the mask then stands for other nicks.
- BanId.AddBanBounded: a ban that replaces others is not held to the limit on characters, as in the original.
- ModeBufferCode.ModeBuf.Put: one letter per slot, as the callers pass; fixed sizes of the letter buffers and the freeing of strings are not modelled, parameters are sequences of strings rather than one text.
- MemberMatrix.Run: the persist flag of a channel is fixed; joins are of clients that are not zombies and not yet on the channel, as the callers check.
- MemberLinks.Network.MakeZombie: the chain of servers towards us is given as a list.
- MemberLinks.Network.Subtract: the ban and invite lists of the channel are not kept; invitations are in Invites.InviteLists.ClearInvites.
- MemberLinks.Network.Create: finding the channel by name, the hash table and the creation time are not modelled.
- MemberLinks.Network: objects are addresses and each field a map, instead of one class for each struct; nothing else of channel or client is kept.
- Burst.SendChannelModes: exceptions are not listed, the channel's modes are only a smaller first room, and a later message has room for one name and for each ban; with less the original would not end.
- DBufCode.Queue.Put: the retry after flushing other connections is not modelled.
- Crule.ParseArgs: arguments are a sequence without the bound of CR_MAXARGS.
- CruleParser.Parser.ArgList: the same.
- CruleParser.Parser.Primary: negations are counted and put around the operand afterwards.
- CruleParser.Parser.Run: trees are values, so building through the insertion pointer and freeing aborted trees are not modelled; arguments are a sequence without the bound of CR_MAXARGS, and `collapse` is applied as in the build without debugging although only debugging builds print.
- IpRegistryCode.Registry.Disconnect: the targets of clients are sequences of numbers; notices to clients are not modelled.
- Sending, numerics, logging and notices: a line sent is a record appended to a list.
- The except lists, `is_banned` and its host variants, DNSBL marks, `SetAutoChanModes` and `common_chan_count`: copies of what is here, or of code not modelled.
- Keys, redirects, limits and member modes in `mode_parse`, and the client changes it collects: branches on permissions and arguments.
- Event engines, files, encryption, class and privilege tables: system calls or simple members.
