# PLATHO: verified models

A Dafny model of the parts of PLATHO where a mistake would cost tokens, freeze a route or leave a page
unserved, with the properties they are built for proved for every input, every run or every reachable state.

**STON.fi route codec and freeze gate** (`Cells`, `Cursor`, `RouteCodec`, `RouteRoundTrip`, `RouteFreeze`).
Cells are bit strings with references; builders enforce 1023 bits and 4 references. The printers are builder
chains, the parsers load field after field from a mutable slice, and the gate pushes issues section by
section. The parsers accept exactly the printings of the field records; the round trip says exactly which
parameters print and what comes back; and the gate is ready exactly for candidates whose samples are, bit for
bit, the two cells the candidate's own numbers determine. A cell's hash is the cell (injective hashing), and
a bag of cells is its root or unreadable.

**ATH token** (`AthProtocol`, `AthContracts`, `AthNetwork`, `AthLedger`, `AthConservation`, `AthTransfers`,
`AthBurns`, `AthEscrow`, `AthOutgoing`, `AthDoubling`, `AthRights`, `AthConversations`, `AthCodes`). `AthProtocol` is the wallet and the master as transition functions with
every gate, exit code, order of checks, message and attached value; `AthContracts` is the two contracts as objects
whose handlers may throw half way and whose transaction undoes a throw, proved against those functions, message by
message and over whole histories. `AthNetwork` puts any number of wallets, the master and the messages between them
in one state machine: anybody outside sends anything, bounced flags included; messages arrive in any order, however
late, with any value attached, are refused and bounce, or are lost. The two truncated hashes of the wallet are
arbitrary functions, so nothing depends on their being collision free.

Conservation is false of the wallet without a condition, because the recovery of a stuck transfer looks at its age
only. `BalancedIffRightful` is the exact condition, over every run: the books balance throughout if and only if
every recovery that succeeds unwinds an entry whose tokens are lost with their message. `LateTransferDoubles` and
`LostAcknowledgementDoubles` are one run from genesis each for the two ways it fails: the transfer is only late, or it
was credited and its acknowledgement is lost. `PromptRunsConserve` turns the condition into one on delivery: it holds
in every run in which transfers, bounces and acknowledgements arrive, or are lost with their tokens, within the 30
days after the debit. What the recovering wallet itself promises needs no condition: `AthOutgoing` proves over every
history at one wallet, and `EveryEntryEndsOnce` over every run of the network, late bounces included, that a debit is
restored at most once.

Three modules pin the handlers from outside, in the figures of the design and over every message. `AthRights` says
who may move tokens and supply and names no handler. `AthConversations` tells each conversation to its end: what a
request, a credit, a burn or the genesis takes to be accepted, exactly, and that it then completes, or comes back and
leaves every wallet as it was. `AthCodes` says that every exit code is true of the message it refuses.

**Service worker** (`Caches`, `WorkerRuns`, `ServiceWorker`). `WorkerRuns` interleaves installs, an activation,
lazy completions and fetches at every await, with downloads that fail at will and a worker that can be killed.
`ServiceWorker` is the worker as an object with its handlers as loops; a ghost history makes each handler one of
those runs.

**Airdrop and vesting** (`AirdropTicket`, `AirdropPool`, `AthVesting`, `AthPayers`, `PoolRights`, `TicketRights`,
`VestingRights`). Each contract is a set of handlers, the object they run on, and its accounts over every history of
messages; `Process` runs a whole history on the object. The three modules of rights pin those handlers from outside.
`AthPayers` puts the two that pay in ATH against the wallets that carry their payments out.

**Small algorithms** (`SnakeContent`, `DataCells`, `CommentStripper`), loop for loop.

`Results`, `Numbers`, `Sums` and `Transactions` are shared. `dafny verify dfyconfig.toml` checks the whole project.

Where behaviour is easy to misread, the model follows the code: a null address is stored as `addr_none` but the
swap parser reads only standard addresses there; comparing a decoded address with a null one throws, so the
sample section of the gate stops there and keeps the issues found so far; an expected pTON address is compared
with itself, so that check never fires; a refund debits and drops its escrow before the outgoing key is
checked, and relies on the transaction being undone; a ticket's handlers for returned messages look at no sender,
and a ticket or a pool accepts any message it does not know and does nothing.

## Model

| member | source | states |
|---|---|---|
| RouteCodec.SwapGrammarExact | scripts/stonfi_v2_1_route_lib.ts:211-247 | The swap parser accepts a cell exactly when it is the printing of an in-range field record, and returns that record; anything trailing in either cell is an error |
| RouteCodec.DecodeSwapBody | scripts/stonfi_v2_1_route_lib.ts:211-247 | The load-by-load decoder succeeds, fails and reports exactly as the grammar says, reducing payloads to presence and hash |
| RouteCodec.PtonGrammarExact | scripts/stonfi_v2_1_route_lib.ts:249-272 | The same exactness for the pTON transfer parser |
| RouteCodec.DecodePtonBody | scripts/stonfi_v2_1_route_lib.ts:249-272 | The pTON decoder agrees with its grammar on every cell |
| RouteRoundTrip.SwapBodyAccepted | scripts/stonfi_v2_1_route_lib.ts:85-113 | Which swap parameters print, exactly, and that both cells then stay within 1023 bits and 4 references |
| RouteRoundTrip.SwapRoundTrip | scripts/stonfi_v2_1_route_lib.ts:85-113 | With an ask wallet and a receiver the parser returns every field, excesses defaulting to refund; with either null it refuses with a bad address tag |
| RouteRoundTrip.SwapReported | scripts/stonfi_v2_1_route_lib.ts:211-247 | The decoder reports of a printed swap exactly the parameters it was printed from, defaults filled in |
| RouteRoundTrip.DecodedSwapPins | scripts/stonfi_v2_1_route_lib.ts:211-247 | Two parsed swap cells with the same report are the same cell exactly when their amounts have the same widths and their refund payloads agree |
| RouteRoundTrip.WidenedTwin | scripts/stonfi_v2_1_route_lib.ts:211-247 | A different cell with the same report exists whenever the minimum output has a spare byte |
| RouteRoundTrip.PtonRoundTrip | scripts/stonfi_v2_1_route_lib.ts:129-145 | Which pTON parameters print, exactly, and that they parse back |
| RouteRoundTrip.PtonReported | scripts/stonfi_v2_1_route_lib.ts:249-272 | The same of a pTON transfer |
| RouteRoundTrip.NestedTransfer | scripts/stonfi_v2_1_route_lib.ts:175-209 | The built transfer parses to query id, offer and refund, carries the swap cell that parses to the swap fields, and attaches offer plus both gas amounts |
| RouteFreeze.ValidateRouteFreeze | scripts/stonfi_v2_1_route_lib.ts:440-658 | The gate reports exactly the issues that apply, the four hashes of the rebuild, and is ready exactly for the acceptable candidates |
| RouteFreeze.SampleIssues | scripts/stonfi_v2_1_route_lib.ts:553-641 | The section that can throw keeps what it found: exactly the sample issues that apply, whichever comparison throws |
| RouteFreeze.AcceptableMeansNoIssue | scripts/stonfi_v2_1_route_lib.ts:440-658 | Freeze soundness and completeness: no issue applies exactly when addresses, hashes, proofs and money are in order and both samples are the pinned cells |
| RouteFreeze.PlausibleIsHash | scripts/stonfi_v2_1_route_lib.ts:423-425 | A code hash passes exactly when its text prints 32 bytes, two hex digits each, in either case |
| RouteFreeze.IssuesNameTheFault | scripts/stonfi_v2_1_route_lib.ts:500-658 | A candidate that differs from an acceptable one in status, proofs or code hashes has exactly the issues of what it lacks |
| RouteFreeze.ProfileLaw | scripts/stonfi_v2_1_route_lib.ts:326-343 | When the conservative profile holds, exactly, and that each of its refusals is true |
| RouteFreeze.SamplesPinned | scripts/stonfi_v2_1_route_lib.ts:553-641 | With the rest in order the sample section is silent exactly for the two rebuilt cells, so deadline, query id, referral and refund gas are pinned though no check names them |
| RouteFreeze.BuiltSamplesAccepted | scripts/stonfi_v2_1_route_lib.ts:175-209 | Samples taken from the builder on the candidate's own inputs are accepted |
| RouteFreeze.OnlyRebuildRefusesTwin | scripts/stonfi_v2_1_route_lib.ts:606-638 | For every acceptable candidate with a spare byte there is another pair of samples that only the comparison with the rebuilt cells refuses |
| RouteFreeze.SilentMoneyPins | scripts/stonfi_v2_1_route_lib.ts:507-538 | Lower bounds and the fixed total force 1 TON and 0.05 TON of gas exactly, and bound the minimum output |
| RouteFreeze.FloorBound | scripts/stonfi_v2_1_route_lib.ts:436-438 | For every quote the floor comparison means 95 quoteOut < 100 (dexMinOut + 1) |
| AthContracts.AthWallet.Receive | contracts/ATHWallet.tact:495-1162 | One transaction of the wallet: new state, messages with their values, and exit code are those of the transition function, and a throw changes nothing and sends nothing |
| AthContracts.AthWallet.RefundPendingNotification | contracts/ATHWallet.tact:417-470 | A refund debits, drops the escrow and opens an outgoing entry, or throws |
| AthContracts.AthWallet.Process | contracts/ATHWallet.tact:495-1162 | A whole life of the wallet: the state is what the transition function gives for the history, and under every key escrows and outgoing entries opened are those ended and the one open |
| AthContracts.AthMaster.Receive | contracts/ATHMaster.tact:46-133 | One transaction of the master, all or nothing |
| AthProtocol.RequestFundsItsCredit | contracts/ATHWallet.tact:558-841 | A transfer that arrives with what its request attached, less at most the fee allowance of its lane, is never refused for its value, whatever the fees on arrival; a dearer TEP-74 notice comes out of the allowance |
| AthRights.OnlyTheOwnerSpends | contracts/ATHWallet.tact:495-1162 | Whatever arrives, the balance falls only by a message of the owner's |
| AthRights.OnlyAuthenticTokensArrive | contracts/ATHWallet.tact:495-1162 | It rises only by the wallet of the named sender, by the master, or by the return or late recovery of an entry |
| AthRights.NobodyElseSpends | contracts/ATHWallet.tact:495-1162 | Over every history without a message of the owner's no token is lost |
| AthRights.OthersAreRefused | contracts/ATHWallet.tact:495-1124 | Every message that is the owner's alone is refused to others with its own code, first of all |
| AthRights.SupplyRights | contracts/ATHMaster.tact:46-119 | The supply never grows and falls only by a burn of the reporting wallet; it is deployed by the treasury alone, and undeployed only by its return |
| AthConversations.RequestLaw | contracts/ATHWallet.tact:558-750 | A request is accepted exactly when the owner may make it, per lane and to the nanoton; then tokens, entry and excess are exact |
| AthConversations.CreditLaw | contracts/ATHWallet.tact:752-1008 | A credit is accepted exactly when it is authentic and paid for; then balance, escrow, every notice with its amount, payer and value, and what stays in the wallet are exact |
| AthConversations.TransferCompletes | tests/ath-wallet-transfer.test.ts:141-303 | What an accepted request sends is credited on arrival, and the credit's acknowledgement leaves the sender with exactly the amount less and nothing open |
| AthConversations.TransferBounces | contracts/ATHWallet.tact:365-388 | A transfer that bounces leaves the sender's wallet as it was |
| AthConversations.TransferRecovered | contracts/ATHWallet.tact:1021-1044 | So does a recovery, which goes through exactly from the 2,592,001st second on |
| AthConversations.OnlyItsOwnAnswersEnd | contracts/ATHWallet.tact:365-388 | An entry ends by an answer or a bounce exactly when it comes from its recipient wallet with its own query id and amount |
| AthConversations.EscrowAccepted | contracts/ATHWallet.tact:1046-1069 | The owner's acceptance keeps the tokens, ends the escrow and tells the response address |
| AthConversations.EscrowPruned | contracts/ATHWallet.tact:1077-1089 | Anybody prunes exactly from 86,400 seconds on, or 604,800 for a registry |
| AthConversations.RefusalLaw | contracts/ATHWallet.tact:417-470 | The owner's refusal, asked or bounced, goes through exactly when paid for and free to travel, and sends exactly the tokens back |
| AthConversations.RefusalCompletes | contracts/ATHWallet.tact:417-470 | The sender's wallet credits them, and its acknowledgement leaves the refusing wallet as it was before the escrow |
| AthConversations.OnlyItsOwnAnswers | contracts/ATHWallet.tact:1046-1089 | Under the key of an escrow only its own query id and amount settle it |
| AthConversations.LateAnswers | contracts/ATHWallet.tact:1046-1089 | Without an escrow the owner's acceptance is taken and does nothing, and every other answer is refused |
| AthConversations.BurnLaw | contracts/ATHWallet.tact:495-518 | A burn is accepted exactly from the owner, within the balance, with the owner as response and 4,000,000 nanotons, and sends exactly that amount |
| AthConversations.BurnCompletes | tests/ath-burn-finalization.test.ts:64-228 | The master finalizes it, or it comes back and the wallet is as it was |
| AthConversations.BurnNoticeLaw | contracts/ATHMaster.tact:46-65 | The master takes a burn exactly from the wallet of its holder, within the supply; a wallet takes one back exactly from the master |
| AthConversations.GenesisLaw | contracts/ATHMaster.tact:67-95 | The supply is deployed exactly by the treasury's order to itself, once |
| AthConversations.GenesisCreditLaw | contracts/ATHWallet.tact:537-556 | A wallet takes a genesis credit exactly from the master, while it is empty |
| AthConversations.GenesisCompletes | contracts/ATHMaster.tact:100-119 | An empty wallet of the treasury gets all of it, or it comes back and may be ordered again |
| AthCodes.CodesSpeak | contracts/ATHWallet.tact:365-1162 | Every refusal of the wallet carries a code that is true of the message |
| AthCodes.MasterCodesSpeak | contracts/ATHMaster.tact:46-133 | The same of the master |
| AthConservation.NextInv | tests/ath-wallet-transfer.test.ts:141-303 | Every event keeps the invariant, if it recovers only lost tokens: each open entry is carried by exactly one message of its amount, and the books balance |
| AthConservation.RunsConserve | tests/ath-wallet-transfer.test.ts:141-303 | In every run whose recoveries unwind lost tokens only, balances, tokens under way and undeployed supply add up to the total supply, at most 10^17 |
| AthConservation.BalancedIffRightful | contracts/ATHWallet.tact:1021-1044 | Over every run: the books balance throughout exactly when every recovery unwinds an entry whose tokens are lost |
| AthConservation.RecoveryConservesIffLost | contracts/ATHWallet.tact:1021-1044 | Of one recovery: the books balance after it exactly when a lost message held the tokens of its entry |
| AthConservation.RecoverySound | contracts/ATHWallet.tact:1021-1044 | A recovery of lost tokens keeps the invariant: it writes off the lost message with the entry |
| AthConservation.PromptRunsConserve | tests/ath-wallet-stuck-outgoing-recovery.test.ts:113-155 | When transfers, bounces and acknowledgements resolve within 30 days of the debit and no acknowledgement is lost, every recovery is of lost tokens and the run conserves |
| AthDoubling.LateTransferDoubles | tests/ath-wallet-stuck-outgoing-recovery.test.ts:146-155 | A run from genesis at whose end the books hold 100 units too many: the treasury sends them, the message is late beyond the grace, and a stranger recovers it |
| AthDoubling.LostAcknowledgementDoubles | tests/ath-wallet-stuck-outgoing-recovery.test.ts:130-144 | The same for a transfer that was credited and whose acknowledgement is lost |
| AthConservation.AnsweringNeverThrows | contracts/ATHWallet.tact:365-388 | The acknowledgement or bounce of a genuine transfer is never refused |
| AthTransfers.EffectTransition | tests/ath-wallet-transfer.test.ts:253-303 | Every event moves each transfer along one path: debited, then credited and confirmed, or restored |
| AthTransfers.EntryStep | contracts/ATHWallet.tact:354-388 | In every state and under every event of the network, an outgoing entry opens only when absent and is restored or confirmed only when open |
| AthTransfers.EveryEntryEndsOnce | tests/ath-wallet-stuck-outgoing-recovery.test.ts:113-155 | In the network, over every run with no proviso, late bounces, wrongful recoveries and lost acknowledgements included: debits are restores, confirmations and the one open |
| AthTransfers.EachDebitEndsOnce | tests/ath-wallet-transfer.test.ts:253-303 | In the network, over every run whose recoveries are of lost tokens, per transfer id: debits are restores, confirmations and the one open; credits are confirmations and the one acknowledgement under way |
| AthTransfers.NeverBoth | tests/ath-wallet-stuck-outgoing-recovery.test.ts:113-144 | In the same runs no transfer is both credited and restored |
| AthOutgoing.OutgoingStep | contracts/ATHWallet.tact:354-388 | At one wallet, whatever arrives: only the owner opens an entry, debiting its amount; only the recipient wallet confirms or bounces it; anyone recovers it, after the grace only; a bounce and a recovery put back exactly its amount |
| AthOutgoing.GoneIsGone | tests/ath-wallet-stuck-outgoing-recovery.test.ts:130-144 | Once an entry is gone, no bounce, recovery or acknowledgement for its key changes anything |
| AthOutgoing.EntriesEndOnce | tests/ath-wallet-stuck-outgoing-recovery.test.ts:113-155 | Over every history, in any order and however late: openings under a key are confirmations, bounces, recoveries and the one open |
| AthOutgoing.EntryTokensAddUp | tests/ath-wallet-stuck-outgoing-recovery.test.ts:113-155 | The same token for token |
| AthOutgoing.LateBounceChangesNothing | tests/ath-wallet-stuck-outgoing-recovery.test.ts:113-128 | After a recovery a bounce of the same transfer is refused and changes nothing, through any history that does not open its key again |
| AthBurns.EventBurns | tests/ath-burn-finalization.test.ts:64-146 | What each event does to each burn: one starts under a new number, or one is finalized or restored with its exact amount, and no other changes |
| AthBurns.EachBurnEndsOnce | tests/ath-burn-finalization.test.ts:64-228 | Over every run, per burn: it starts at most once and is finalized, restored or under way, exactly one of the three, so a finalized burn is never restored |
| AthBurns.EventAccounted | tests/ath-burn-finalization.test.ts:191-228 | The token equation of burns for each event, bounced notifications and bounced finalizations included |
| AthBurns.BurnsAddUp | tests/ath-burn-finalization.test.ts:64-146 | Over every run burned is finalized plus restored plus on the way, and the supply fell by exactly what was finalized |
| AthEscrow.EscrowStep | tests/ath-wallet-transfer.test.ts:366-498 | Only an authentic credit opens an escrow, only the owner accepts or refunds it, a prune waits for its time, nothing else touches it |
| AthEscrow.GoneIsGone | tests/ath-wallet-transfer.test.ts:440-498 | After an escrow ended no refund, bounce, prune or acceptance for its key changes anything |
| AthEscrow.TakenKeyRefuses | tests/ath-wallet-transfer.test.ts:959-1057 | A refund that passes its gates changes nothing, with code 14230, exactly when its outgoing key is taken |
| AthEscrow.EscrowsEndOnce | tests/ath-wallet-transfer.test.ts:305-340 | Over every history the openings under a key are the acceptances, refunds, prunings and the one open |
| AthEscrow.EscrowedTokensAddUp | tests/ath-wallet-transfer.test.ts:862-957 | The same token for token |
| Caches.VersionedIsThePattern | web/sw.js:233 | The versioned-asset test matches exactly the strings of the regular expression: anything, an extension, a tag of letters and digits |
| Caches.PutMatch | web/sw.js:231-240 | A store is seen by exactly the lookups of its own URL |
| Caches.IgnoringQueryIsSamePage | web/sw.js:351-357 | A lookup that ignores the query finds exactly the entries whose URL agrees up to the first question mark |
| WorkerRuns.NextInv | web/sw.js:225-309 | Every event keeps: the newest old cache is in place or the current one is complete; verdicts stay true; delete lists cover what is left |
| WorkerRuns.CompleteForever | web/sw.js:225-309 | A current cache that holds every asset holds them ever after |
| WorkerRuns.AlwaysSomethingToServe | web/sw.js:245-261 | In every reachable state the newest old cache is there, untouched, or the current one is complete |
| WorkerRuns.DropsAreJustified | web/sw.js:253-258 | Deleting the newest old cache, or a decision to drop all, happens only with every asset held, then and from then on |
| WorkerRuns.ActivationLeavesTheNewest | web/sw.js:253-258 | A finished activation left no old cache if complete, and otherwise exactly the newest unless the current one became complete |
| WorkerRuns.ReuseRefinesDownload | web/sw.js:231-240 | As long as the origin answers each versioned URL with the content it names, every versioned entry is ok and is that content, copied or downloaded |
| WorkerRuns.ReusableIsFirst | web/sw.js:234-237 | The copy install takes is the first ok, unredirected one, and exists exactly when some old cache has one |
| WorkerRuns.OfflineInstallGains | web/sw.js:231-240 | Without a network install gains exactly the versioned assets some old cache answers ok and unredirected |
| WorkerRuns.LazyWaits | web/sw.js:293-299 | A navigation starts a completion exactly when an old cache is left and a minute has passed |
| ServiceWorker.Worker.InstallAssetFrom | web/sw.js:231-240 | The per-asset loop: held, else first usable old copy, else download |
| ServiceWorker.Worker.Install | web/sw.js:225-243 | Every asset ends as if installed alone; nothing else changes |
| ServiceWorker.Worker.FillMissing | web/sw.js:247-252 | Exactly the missing assets that download ok are added |
| ServiceWorker.Worker.Activate | web/sw.js:245-261 | Old caches left: none if complete, the newest if several, else the one there was |
| ServiceWorker.Worker.CompletePrecacheIfNeeded | web/sw.js:293-309 | Due only with an old cache left and a minute passed; drops old caches only when complete |
| ServiceWorker.Worker.CacheFirst | web/sw.js:359-373 | Reply and store in every case of cache, network and stale version; what is not from the network is held under some version of the URL, an exact copy first, and an error means none is; a version check bypasses every cache |
| ServiceWorker.Worker.NavigationResponse | web/sw.js:331-349 | Reply and shell store in every case; what is not from the network is an unredirected version of the page or the shell, and an error means no cache holds a shell |
| ServiceWorker.FirstOtherIsFirst | web/sw.js:284-291 | When the current cache has no answer, the first old cache that has one gives it |
| ServiceWorker.ShellIff | web/sw.js:311-315 | When a shell can be served, exactly |
| ServiceWorker.CurrentFirstIsHeld | web/sw.js:284-291 | The caches answer only with what one of them holds under the URL, or under a version of it, and none answers only when none does |
| ServiceWorker.AsksVersionLaw | web/sw.js:361-363 | A request is a version check exactly when its URL contains the tag |
| ServiceWorker.CachedPageIsClean | web/sw.js:311-349 | A cached page served to a navigation never carries the redirected mark |
| ServiceWorker.OfflineNavigationServed | web/sw.js:331-349 | If the newest old cache held a shell and the shell is an asset, every offline navigation after every run is served |
| AirdropTicket.TicketContract.Receive | contracts/AirdropTicket.tact:64-139 | One transaction of the ticket, all or nothing, with the value and bounce flag of what it sends |
| AirdropTicket.TicketContract.Claim | contracts/AirdropTicket.tact:71-92 | A claim takes at most 1000 credits and sets the interlock |
| AirdropTicket.TicketContract.Process | contracts/AirdropTicket.tact:64-139 | A whole life of the ticket object: what it holds is what it held and took in, less what it sent |
| AirdropTicket.TicketConserves | tests/airdrop-ticket.test.ts:87-145 | Over every run credits issued are held, under way, redeemed, migrated or overflowed, and none overflowed while at most 2^32 - 1 were issued |
| AirdropTicket.BounceLosesIff | contracts/AirdropTicket.tact:94-98 | A bounce loses its credits exactly when they no longer fit beside those held |
| AirdropTicket.OverflowExample | contracts/AirdropTicket.tact:94-98 | A ticket near its limit refuses a bounce of ten credits |
| AirdropTicket.LateBounceRestores | tests/airdrop-ticket-inflight-deadman.test.ts:160-195 | The dead-man release works exactly after the grace, and a bounce after it restores every credit and leaves the interlock open |
| AirdropTicket.ClaimsFitTheSink | contracts/FeeAccumulator.tact:221-242 | Every claim under way carries 10 to 1000 credits, so the sink never refuses one for its credits (15062), and accepts it exactly when it is bound, the sender is the ticket and the value suffices |
| TicketRights.TicketRightsHold | contracts/AirdropTicket.tact:64-136 | Only the sink gives credits, only the owner gives them away and never during a claim; the interlock is set by a claim and opened by the answer, the return, or the owner after seven days |
| TicketRights.ClaimLaw | contracts/AirdropTicket.tact:71-92 | When a claim goes through, exactly, and what it takes and sends |
| TicketRights.ReleaseLaw | contracts/AirdropTicket.tact:130-136 | When the owner releases a claim that stays away, exactly, and with which credits |
| TicketRights.ExportLaw | contracts/AirdropTicket.tact:100-118 | The same of an export |
| TicketRights.CreditLaw | contracts/AirdropTicket.tact:64-69 | The same of a credit |
| TicketRights.ClaimCycle | contracts/AirdropTicket.tact:94-128 | The sink's answer opens the interlock and takes no credit; a claim that comes back leaves the ticket as it was |
| TicketRights.ExportReturns | contracts/AirdropTicket.tact:120-122 | Exported credits that come back are the ticket's again, beside newer ones |
| TicketRights.InterlockLaw | tests/airdrop-ticket.test.ts:119-145 | Over every run without a jammed answer or a release: the ticket is locked exactly while one redeem, for exactly its credits, is out, on its way back, or being answered |
| TicketRights.NeverJams | tests/airdrop-ticket.test.ts:119-145 | So after such a run an owner with ten credits and no redeem under way can claim |
| TicketRights.TicketCodesSpeak | contracts/AirdropTicket.tact:64-136 | Every refusal of the ticket carries a code that is true of the message |
| AirdropPool.PoolContract.Receive | contracts/AirdropPool.tact:160-295 | One transaction of the pool, all or nothing, with the value and bounce flag of what it sends |
| AirdropPool.PoolContract.Process | contracts/AirdropPool.tact:160-295 | A whole life of the pool object keeps the closed form of its accounts |
| AirdropPool.PoolContract.AccrueCredits | contracts/AirdropPool.tact:232-265 | An accrual pays its credits, or the whole credits left, or nothing |
| AirdropPool.PoolContract.SweepResidualToTreasury | contracts/AirdropPool.tact:273-295 | The sweep empties the budget to the treasury, or throws |
| AirdropPool.PoolClosedForm | tests/airdrop-pool.test.ts:129-169 | Over every history from an unsealed deployment: distributed is the smaller of 10 ATH per accepted credit and 15 million, and nothing is stranded |
| AirdropPool.AccrualStands | contracts/AirdropPool.tact:232-265 | An accrual keeps the closed form across the edge, and what it requests is what leaves the budget |
| AirdropPool.PaymentsAddUp | contracts/AirdropPool.tact:253-264 | Every token requested from the wallet was distributed or swept |
| AirdropPool.SealIsFinal | contracts/AirdropPool.tact:215-229 | After the seal wallet, treasury and manifest never change and the budget never grows |
| PoolRights.PoolRightsHold | tests/airdrop-pool.test.ts:171-179 | Only the controller binds and seals, only the pool's wallet funds it, only the issuer makes it pay; the budget falls otherwise only at the seal or by a sweep ten years later |
| PoolRights.BindingsStand | contracts/AirdropPool.tact:160-193 | A binding is made once, and after the seal only the issuer can change |
| PoolRights.AccrualLaw | contracts/AirdropPool.tact:232-265 | An accrual goes through exactly from the issuer, for a basechain buyer, 1 to 1000 credits and its gas, and pays 10 ATH a credit while whole ones last |
| PoolRights.RebindLaw | contracts/AirdropPool.tact:185-193 | The controller who knows the sealed manifest can replace the issuer, exactly then |
| PoolRights.SealLaw | contracts/AirdropPool.tact:215-229 | The seal goes through exactly with everything bound and 15 million ATH funded, and clamps a surplus away |
| PoolRights.FundingLaw | contracts/AirdropPool.tact:195-213 | A funding is taken exactly from the bound wallet before the seal, and answered with its own figures |
| PoolRights.GenesisOpens | tests/airdrop-pool.test.ts:69-100 | Three bindings, a funding and the seal open a pool exactly with a manifest and 15 million ATH; a surplus stays outside |
| PoolRights.OthersChangeNothing | tests/airdrop-pool.test.ts:171-179 | Over every history without the controller no binding changes, and without the issuer nothing is distributed |
| PoolRights.FieldsTellHistory | contracts/AirdropPool.tact:215-281 | Seal time, last payout, payouts and requests are those of the messages |
| PoolRights.ResidualWaits | tests/airdrop-pool.test.ts:181-218 | After every history from deployment the residual is swept exactly from ten years after the seal and a year after the last payout on, all of it, to the treasury |
| PoolRights.PoolCodesSpeak | contracts/AirdropPool.tact:160-295 | Every refusal of the pool carries a code that is true of the message |
| AthVesting.VestingContract.Receive | contracts/ATHVesting.tact:133-205 | One transaction of the vesting contract, all or nothing, with the value and bounce flag of what it sends |
| AthVesting.VestingContract.Process | contracts/ATHVesting.tact:133-205 | A whole life of the vesting object never runs ahead of the schedule, and claimed is what was paid |
| AthVesting.VestingContract.ClaimableNow | contracts/ATHVesting.tact:106-119 | Claimable is what has vested less what is claimed or pending |
| AthVesting.ScheduleIsExact | contracts/ATHVesting.tact:90-104 | k unlocks have vested exactly from the k-th whole year on, at most the total |
| AthVesting.VestedIsMonotone | contracts/ATHVesting.tact:90-104 | What has vested never shrinks |
| AthVesting.StepFate | tests/ath-vesting.test.ts:231-346 | A claim opens only when idle, for exactly what is free; it ends only by the beneficiary's wallet or the own wallet; nothing else moves anything |
| AthVesting.CapNeverThrows | contracts/ATHVesting.tact:164-175 | The cap gate 24204 is never the one that fires |
| AthVesting.VestingNeverRunsAhead | tests/ath-vesting.test.ts:99-143 | Over every history claimed plus pending stays within what vested, claimed is what was paid, and terminals are counted by the last query id |
| AthVesting.FromDeployment | tests/ath-vesting.test.ts:166-197 | The same from deployment, with claims opened equal to terminals and the one open |
| VestingRights.ClaimLaw | contracts/ATHVesting.tact:133-161 | A claim opens exactly for all that is unlocked and unclaimed, under the next query id, when none is open |
| VestingRights.ClaimIsPaid | contracts/ATHVesting.tact:164-175 | It is paid exactly by the beneficiary's wallet's acknowledgement of it |
| VestingRights.ClaimFails | tests/ath-vesting.test.ts:281-314 | It fails exactly by the own wallet's notice or return of it, and the amount is free again |
| VestingRights.WholeAmountIsPaid | tests/ath-vesting.test.ts:199-229 | After a hundred years one claim takes exactly the total, and no claim follows |
| VestingRights.VestingCodesSpeak | contracts/ATHVesting.tact:133-205 | Every refusal of the contract carries a code that is true of the message |
| AthPayers.PayoutGoesThrough | contracts/AirdropPool.tact:253-264 | The pool attaches enough for its wallet to carry a payout out: tokens are debited and sent exactly when the wallet holds them under a free query id, else 14203 or 14230 |
| AthPayers.SweepGoesThrough | contracts/AirdropPool.tact:283-294 | The same of the residual's sweep to a basechain treasury |
| AthPayers.ClaimGoesThrough | contracts/ATHVesting.tact:133-161 | The same of a vesting claim |
| SnakeContent.SnakeCell | scripts/generate_ath_metadata_content.ts:42-55 | Following the references reads 0x00 and the value, bit for bit; every cell but the last holds 127 bytes; the chain has ceil((n+1)/127) cells |
| DataCells.Walker.Walk | scripts/profile_registry_storage_economics.ts:87-93 | The walk adds exactly the reachable cells not seen before and counts them |
| DataCells.CountDataCells | scripts/profile_registry_storage_economics.ts:81-95 | The count is the number of distinct cells reachable from the root |
| DataCells.ReachIsReachability | scripts/profile_registry_storage_economics.ts:87-93 | Reachable means at the end of some path of references |
| CommentStripper.Strip | tests/audit-round7-groups.test.ts:107-125 | The indexed scan computes the recursive specification |
| CommentStripper.OutputHasNoComments | tests/audit-round7-groups.test.ts:107-125 | No comment opener is left outside a literal |
| CommentStripper.StripIsIdempotent | tests/audit-round7-groups.test.ts:107-125 | Stripping twice is stripping once |
| CommentStripper.LiteralsSurvive | tests/audit-round7-groups.test.ts:113-117 | Literals keep their non-space characters, quotes and escapes included, in order |
| CommentStripper.LineCommentGoes | tests/audit-round7-groups.test.ts:107-125 | A line comment leaves one space, and the text after its newline is scanned as code |
| CommentStripper.BlockCommentGoes | tests/audit-round7-groups.test.ts:107-125 | So does a block comment up to its first closing mark; an unclosed one swallows the rest |
| CommentStripper.LiteralSurvives | tests/audit-round7-groups.test.ts:113-117 | A literal is copied whole, comment marks and escapes included |
| CommentStripper.PlainSurvives | tests/audit-round7-groups.test.ts:107-125 | Code without slashes and quotes is copied |
| CommentStripper.CodeKeepsSolid | tests/audit-round7-groups.test.ts:124 | The white space left is single blanks, and every other character of the scan is kept in order |

## Left out

- AthConservation.RunsConserve: holds of the runs whose recoveries unwind lost tokens, since the code also recovers others; BalancedIffRightful shows that this condition is exact.
- AirdropTicket.TicketConserves: a returned message is one of the ticket's own, since the handlers check no sender; one ticket is followed, against a sink and export targets that answer at will.
- AthVesting.FromDeployment: bounds what is claimed, which counts acknowledged transfers; a late transfer recovered by the own wallet fails its claim and may still arrive, as AthDoubling shows of the token.
- AirdropPool.PoolClosedForm: starts from an unsealed deployment; a pool deployed already sealed never has a budget.
- WorkerRuns.AlwaysSomethingToServe: one worker version in its lifecycle order (install, then activate, lazy completions and fetches in any interleaving) beside old caches nobody else changes; several versions active at once are not modelled.
- WorkerRuns.ReuseRefinesDownload: speaks of versioned URLs only, and only as long as the origin never gives one of them two contents; no other property of the worker depends on that.
- RouteFreeze.ValidateRouteFreeze: the candidate has every declared key, its numbers are already integers, and issue messages and the JSON of the report are not modelled.
- AthConservation.PromptRunsConserve: one direction only; a run with a late message still conserves when nobody recovers its entry, which BalancedIffRightful covers.
- AthTransfers.EachDebitEndsOnce: pairs credits with confirmations, which needs recoveries of lost tokens only, for the same reason; EveryEntryEndsOnce and AthOutgoing.EntriesEndOnce need nothing.
- AthProtocol.RequestFundsItsCredit: what a message may lose to fees on its way is a hypothesis; in the network any value may arrive.
- The full 256-bit hash under which a wallet keeps an outgoing entry: the key is the query id and the recipient wallet themselves.
- Fragments of URLs, which the caches ignore: a URL is a path and a query.
- Deployment of wallets: a wallet nobody has written to is an empty one.
- The widths of balances and times, which stay far below their fields; ticket credits are modelled at 32 bits because they can reach them.
- Constructor gates 14104 and 24000 to 24003; the master's is a precondition of its constructor.
- The other handlers of the fee accumulator and the sweep of unaccounted TON.
- Storage errors and partial reads of the caches, abort timers, client claiming and window counting in the worker.
- Bag-of-cells and base64 decoding, address text, SHA-256: cells and addresses are values.
- The dictionary of metadata fields around the snake cells.
- The preflight and funding envelope scripts, the client modules and the user interface.
