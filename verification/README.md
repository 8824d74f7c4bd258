# Verified model of the PeerClaw node's state machines

This project models, in Dafny, the parts of PeerClaw in which state changes step by step and mistakes would go
unnoticed: the workflow engine, the payment channels, the session store, the limits on agents, the pruning of
conversations, and the rate limiter of chat channels. Everything the node gets from outside (language models, tools,
condition expressions, safety checks, clocks, the network) is a parameter that may take any value, so each theorem
holds whatever these do.

`dafny verify dfyconfig.toml` checks everything.

## The parts

**Workflows** (`Graph`, `FlowSpec`, `FlowOrder`, `FlowRouting`, `FlowValidator`, `FlowInterpreter`, `FlowRuns`,
`FlowSteps`, `FlowAcceptance`, `FlowTermination`, `FlowReach`). A flow is a graph of nodes and labelled edges. Flows
without a start node run in topological order: the order exists exactly for acyclic flows with distinct ids and known
endpoints; every node runs after all its predecessors have left their outputs, and the prompt of a model step is built
from all outputs so far, while a crew gets only the inputs of the flow. Such a run succeeds exactly if every crew node
has a crew and every answer asked for comes. Flows with a start node are interpreted with one cursor. `FlowSteps` says
what a step does at each kind of node, in the spelling of the builder and by the order of the flow's list of edges:
the condition of an if node names the edge it follows, and so on for every kind. The static check accepts exactly the
flows that `AcceptsIff` describes in the same terms, its reachability walk being exact; on these, routing never fails
except at a note with ambiguous edges, and the run follows edges whose labels are the branches it computed. Two runs
that have agreed so far part exactly where an outcome that was asked for differs, and the log alone determines the
route. The records of a while node form blocks loop(0), loop(1), ..., exit. If every cycle uses the loop edge of a
while node, every run ends without the guard of 10 000 steps, by a measure in mixed radix: the digit of a node is
twice its remaining loops, plus one if the cursor is before it. The counter reset on exit raises a digit, but only one
less significant than the digit that falls. The bound that follows is a product over the nodes. `AllRunsEndIff` makes
this exact: every run ends within that bound if and only if no cycle of other moves can be reached, and otherwise some
run goes on for any number of steps.

**Payment channels** (`SigningBytes`, `Channel`, `ChannelProtocol`, `ChannelTotals`, `ChannelManager`,
`ChannelCalls`). An endpoint is an object with balances and a nonce; two of them talk over a network that loses,
repeats and reorders. A run ends with one ledger explaining both ends if and only if every successful payment in it
was made by an endpoint that was not behind; with one payer this is automatic. In every reachable state a payment can
still reach the peer if and only if its payer was not behind: made while behind, it reuses a nonce of the peer's, and
no continuation applies it. The manager keeps a map of channels and an index by peer; the index is exact in every
reachable state, statuses never go back except by reopening, and a close request stays true of the stored channel.
`StatusChangesIff` lists all that can change the status of a channel; a request closes one exactly if the key
registered for the peer signed that very request, and one that the peer itself issued always does while the channel is
open or closing.

**Sessions** (`SessionKeys`, `SessionStore`, `SessionRuns`). Turns lie in an ordered table under composite keys. For
ids without NUL and indices of up to ten digits the two tables refine a map from ids to sequences of turns, over every
run of saves, clears and prunes; for other ids `ForeignKeyInScan` says exactly when one session's scan reaches
another's keys. Loading yields the newest turns saved since the session was last removed.

**Agent limits** (`Budget`, `AgentLoop`, `UnifiedLoop`, `UnifiedLaws`, `UnifiedOutcomes`). The budget has windows that
restart lazily, and a reply is charged later than its estimate was checked. The limits hold in every run of the direct
loop, whose method is tied to these runs; they hold in a run with tasks of the shared loop, which charges without a
check, exactly when each such charge happened to fit, for which a check for twenty full replies beforehand would
suffice. Any interval of one hour costs at most twice the hourly limit, and this factor is reached. The shared loop
itself lets a call through exactly when fewer than four with its signature were requested before, runs at most four
different calls a pass, and ends within twenty passes. `OutcomeIff` says how a run ends and with which records, for
every outcome, in terms of the passes it meets, nudges included.

**Conversation pruning** (`Compaction`, `CompactionLaws`, `PruningOutcome`). Four passes edit the conversation in
place. What is left is described for every conversation. `SurvivesIff` says, for every conversation and limit, exactly
when the messages from a position on come through word for word; `AlwaysSurvivesIff` says for which questions this
holds under every limit. The result fits, or holds only system messages before the protected tail, unless some tool
result grows when it is cut, and `PruningFitsIff` says exactly when it then still does.

**Rate limiter** (`RateLimiter`, `RateWindows`). A call that nothing interrupts is allowed exactly if the calls
allowed in its minute and in its hour leave room for one more; windows begin at a call. Callers interleave their
atomic steps freely; with k callers a count exceeds its limit by at most k - 1. Some interleaving reaches that for the
minute count if the hour allows a full minute, and for the hour count if sixty full minutes can use the hour up.

`Common` and `Text` hold what the parts share.

## Where the code and its documentation differ

The model follows the code.

- A legacy flow with duplicate node ids is rejected with the message that it has a cycle (`src/flow/mod.rs:409`).
- The static check skips notes (`src/flow/interpreter.rs:1140`), so routing can still fail at a note.
- An hourly limit bounds windows that begin when they are first looked at, not the last sixty minutes
  (`src/agent/budget.rs:49-61`).
- Tasks that go through the shared loop are charged without asking the budget (`src/agent/runtime.rs:693-695`).
- Pruning is said to keep the last four exchanges; with fewer than four questions of the user it protects only the
  last message (`src/agent/compaction.rs:191-192`), and the other questions are lost under small limits, unless cut tool
  results come to count as the missing ones. It is said to keep notes about merged duplicates, but these are user
  messages and are dropped like others (`src/agent/runtime.rs:487`).
- A tool result cut inside its own marker, as in "Tool error: " followed by a long word, is taken for a question from
  then on (`src/agent/compaction.rs:46-51`, `58-62`).
- Cutting a tool result makes it longer when fewer than 32 characters go: 507 characters can become 528. The unsigned
  subtraction at `src/agent/compaction.rs:101` then wraps, as in a release build, the believed size becomes zero, and
  pruning stops after its first pass, under every limit that called for it. A debug build would stop with an error
  instead.
- The total an endpoint keeps of what it received counts nothing as long as payments are made in turn, since the
  subtraction at `src/channel/mod.rs:240` saturates.
- A close request is checked for its signature and its sum, not against the balances stored or the id of the channel
  (`src/channel/mod.rs:557-568`).
- The repeat filter counts requests, not executions: a call can be refused after it ran once.

## Model

| member | source | states |
|---|---|---|
| FlowSpec.FindNode | src/flow/interpreter.rs:481-485 | a lookup yields a listed node with the id, and nothing only if no node has it |
| FlowSpec.FirstNodeIsFound | src/flow/interpreter.rs:481-485 | of several nodes with one id the lookup yields the one listed first |
| FlowSpec.OutgoingMap | src/flow/interpreter.rs:150-158 | the map filled edge by edge gives every node exactly its outgoing edges, in the order of the flow |
| FlowSpec.Validate | src/flow/mod.rs:346-360 | passes exactly for nonempty flows whose edges name known nodes; otherwise it reports that there are no nodes, or what the first offending edge names |
| FlowOrder.Degrees | src/flow/mod.rs:382-389 | in-degrees count incoming edges, parallel ones separately, and the adjacency lists hold all successors |
| FlowOrder.InitialQueue | src/flow/mod.rs:390-394 | the queue starts with exactly the nodes without incoming edges, in any order |
| FlowOrder.Release | src/flow/mod.rs:398-406 | finishing a node lowers each successor's in-degree once per edge and queues exactly those that reach zero |
| FlowOrder.StuckHasCycle | src/flow/mod.rs:409-411 | if the queue runs dry before all nodes are listed, the graph has a cycle (pigeonhole over predecessors) |
| FlowOrder.ListedIsTopological | src/flow/mod.rs:409-412 | a full list is a permutation of the ids with every edge's source first, and then the graph is acyclic |
| FlowOrder.ExecutionOrder | src/flow/mod.rs:380-413 | succeeds if and only if the flow is nonempty, without dangling edges, with distinct ids and acyclic; the result is then a topological permutation, whatever order the initial queue has |
| FlowOrder.NextIsOk | src/flow/interpreter.rs:375-420 | whatever runs next in an edge-respecting order runs after every predecessor that is not a note has left its output |
| FlowOrder.RunLegacy | src/flow/interpreter.rs:355-422 | succeeds if and only if the flow is sortable, every crew node has a crew and every answer asked for comes; it has then run every node that is not a note once, in an edge-respecting order, each after the outputs of all its predecessors that are not notes were recorded, as a crew step exactly if its node has a crew, and otherwise with a prompt built from exactly the outputs before it |
| FlowOrder.SucceedsIff | src/flow/interpreter.rs:375-422 | whatever topological order is taken: a run succeeds if and only if no node of kind "crew" lacks its crew and all answers come, one for each node that is not a note |
| FlowOrder.FailureMeans | src/flow/interpreter.rs:373-418 | a missing crew is reported only for a node of kind "crew" without one, a failed step only for a node that got no answer |
| FlowRouting.PickNext | src/flow/interpreter.rs:168-267 | where routing goes, an edge of the node leads |
| FlowRouting.BranchRoutes | src/flow/interpreter.rs:174-238 | a computed branch follows an edge with that label if there is one, and otherwise reports the missing label |
| FlowRouting.FirstLabelWins | src/flow/interpreter.rs:174-238 | of several edges with the branch's label the one listed first is taken |
| FlowRouting.PlainRoutesTo | src/flow/interpreter.rs:239-265 | any other node goes along its only edge, else the only unlabeled one, else the only default one, and is ambiguous exactly when there is none of these |
| FlowRouting.ValidatedPlainRoutes | src/flow/interpreter.rs:239-265 | a validated node that does not branch is never ambiguous, and stops only without outgoing edges |
| FlowRouting.EdgesOkIff | src/flow/interpreter.rs:1144-1245 | what the check demands of a node's edges is exactly that routing never fails there, whichever branch is taken; of an end, that it has none |
| FlowValidator.HasBothLabels | src/flow/interpreter.rs:1146-1190 | the scan that remembers two flags finds both labels exactly when both occur |
| FlowValidator.CheckNode | src/flow/interpreter.rs:1138-1283 | accepts a node exactly when its branch labels, its fan-out and the nodes it names are right; the error says which of these is not, edges first |
| FlowValidator.ReachableFrom | src/flow/interpreter.rs:1297-1307 | the stack walk ends, and has then seen exactly the nodes with a path from the start |
| FlowValidator.CheckReached | src/flow/interpreter.rs:1308-1316 | passes exactly when every node that is not a note was seen, and otherwise names one that was not |
| FlowValidator.ValidateInterpreter | src/flow/interpreter.rs:1123-1319 | accepts exactly the flows with one start node with one edge, well-formed nodes, and a path to every node that is not a note; a node reported unreachable has no path |
| FlowValidator.ValidateForRun | src/flow/mod.rs:370-377 | passes exactly for the flows either mode can run |
| FlowAcceptance.AcceptsIff | src/flow/interpreter.rs:1123-1319 | the flows accepted are exactly those with one node of kind "start", with one edge, and a path to every node that is not a note; branching nodes have both their labels, ends no edge, other nodes a clear choice; and the nodes that guardrails and copying transforms name are there |
| FlowInterpreter.Execute | src/flow/interpreter.rs:490-690 | what one node does to counters and records, and the branch it takes, for every class of node and every outcome |
| FlowInterpreter.RunInterpreter | src/flow/interpreter.rs:426-490 | the loop is a run of the step relation from the start node, ending as its last step says, and cut off only after exactly 10 000 nodes |
| FlowSteps.IfFollowsItsCondition | src/flow/interpreter.rs:534-550 | an if node follows the flow's first edge labelled "true" or "false", as its condition says, and logs that branch; without the edge, or without a value, the run fails |
| FlowSteps.ApprovalFollowsTheAnswer | src/flow/interpreter.rs:505-533 | an approval follows the edge labelled "reject" exactly if the inputs reject, else "approve" |
| FlowSteps.GuardrailFollowsItsVerdict | src/flow/interpreter.rs:592-690 | a guardrail follows "pass" exactly if its verdict is good or overruled, else "fail"; with nothing to check it fails the run |
| FlowSteps.WhileFollowsItsCondition | src/flow/interpreter.rs:551-591 | a while node follows "loop" while its condition holds and its count is below the limit, 100 if none is set, and counts on; else "exit", forgetting its count; at the limit the condition is not asked |
| FlowSteps.PlainNodesGoOn | src/flow/interpreter.rs:491-504 | notes leave no record, the start puts out the inputs, an end stops the run, working nodes put out their output or fail; all but ends go on along the only edge of the flow, the only unlabeled one, or the only default one |
| FlowSteps.NothingElseRuns | src/flow/interpreter.rs:1108-1113 | any other kind fails the run, and so does a node that is not there |
| Text.TrimIff | src/flow/interpreter.rs:144-148 | trimming removes exactly the white space at both ends |
| Text.SameLowerIff | src/flow/interpreter.rs:144-148 | two texts have the same lower-case form exactly if they differ at most in the case of ASCII letters |
| FlowSteps.NormalizedIff | src/flow/interpreter.rs:144-148 | a label counts as the text it reads but for case and surrounding white space, and as none exactly if it is absent or blank |
| FlowRuns.DecisionIsLogged | src/flow/interpreter.rs:490-690 | every node that takes a branch appends one record naming it and that branch; notes leave none |
| FlowRuns.StepIsRouted | src/flow/interpreter.rs:475-690 | every step goes along an edge of the flow, at branching nodes one labelled with the recorded branch |
| FlowRuns.RunsSplitIff | src/flow/interpreter.rs:490-690 | two runs that agreed so far take different branches at a step if and only if the outcome its node asks for differs: a condition (at a while node only below the cap), a guardrail verdict not overruled, or the approval answer; otherwise they still agree, whatever actions put out |
| FlowRuns.LogDeterminesRoute | src/flow/interpreter.rs:490-690 | the log alone determines the route: runs whose logs name the same nodes and branches visited the same nodes with the same counters, notes included |
| FlowRuns.WhileDecision | src/flow/interpreter.rs:551-590 | a while node loops exactly below its cap and with a true condition; otherwise it exits, resets its own counter, and blames the cap exactly when it was reached |
| FlowRuns.TraceIsWalk | src/flow/interpreter.rs:475-591 | the visited nodes of any run form a walk from the start node |
| FlowRuns.BlockStep | src/flow/interpreter.rs:551-591 | one step extends the block structure of a while node's records |
| FlowRuns.WhileRecordsAreBlocks | src/flow/interpreter.rs:551-591 | in every run a while node's records are blocks loop(0) to loop(k-1), exit, with k at most the cap and the cap blamed exactly when k reaches it, the last block possibly open |
| FlowRuns.ValidatedStepProgresses | src/flow/interpreter.rs:168-267 | on a validated flow a step from a known node finds it, and fails only for outside reasons, at a node of unknown kind, or at a note, there exactly when its edges are ambiguous; the error names the node |
| FlowRuns.ValidatedRunProgresses | src/flow/interpreter.rs:475-490 | so at every step of every run of a validated flow, and a run stops only where there is no way on |
| FlowTermination.ValueDecreases | src/flow/interpreter.rs:551-591 | a smaller digit outweighs everything less significant, as the reset of counters needs |
| FlowTermination.StepProgress | src/flow/interpreter.rs:475-591 | a step follows an edge that is no loop edge, or takes one more loop of the while node it leaves; other counters stay |
| FlowTermination.MeasureDecreases | src/flow/interpreter.rs:475-591 | every step that goes forward in a given order of the nodes or takes a loop lowers the mixed-radix measure, counter resets included |
| FlowTermination.RunIsBounded | src/flow/interpreter.rs:475-591 | a run whose steps, loops aside, go along an acyclic relation visits no more nodes than the product of 2 * cap + 2 over while nodes and 2 over others |
| FlowTermination.RunsHalt | src/flow/interpreter.rs:475-591 | if the graph without loop edges is acyclic, no run visits more than the product of 2 * cap + 2 over while nodes and 2 over others, whatever the conditions say |
| FlowTermination.GuardNeverFires | src/flow/interpreter.rs:472-479 | if that product is at most 10 000 the step guard never cuts a run off |
| FlowTermination.TrappedRunGoesOn | src/flow/interpreter.rs:472-479 | a run inside a set of nodes of whatever kind that no branch on offer leads out of goes on for any number of steps, whatever the outcomes, as long as nothing fails |
| FlowTermination.RunErrors | src/flow/interpreter.rs:426-490 | the only errors a validated flow can end with, and at which nodes: a failure outside, a node of unknown kind, a note with ambiguous edges, or the step guard, which a small bound rules out |
| FlowTermination.RunFlow | src/flow/interpreter.rs:291-340 | a kickoff succeeds only on runnable flows; in the mode the start node selects it reports how a complete run of the interpreter ended, or the steps or the first failure of a run in topological order, which succeeds exactly if all crews are there and all answers come |
| FlowReach.StepLeads | src/flow/interpreter.rs:475-690 | every step goes a way that some outcome opens; one that does not go forward takes a loop |
| FlowReach.Continue | src/flow/interpreter.rs:475-690 | every way is open: a run can be continued along it by choosing the outcome of its next step, at a while node a loop only below the cap |
| FlowReach.VisitedIff | src/flow/interpreter.rs:471-690 | runs visit exactly the nodes to which ways lead from the start, given the approval answer |
| FlowReach.AllRunsEndIff | src/flow/interpreter.rs:472-479 | without the step guard every run ends, within the product bound, if and only if no cycle of moves other than loops can be reached; otherwise some run goes on for any number of steps |
| FlowReach.LoopCyclesAreNotLive | src/flow/interpreter.rs:472-479 | it suffices that every cycle of the flow uses a loop edge of a while node |
| FlowReach.RunFailsIff | src/flow/interpreter.rs:1138-1142 | on a validated flow some run fails with ambiguous edges exactly at the reachable notes with ambiguous edges, and some run meets an unknown kind exactly at the reachable nodes of unknown kind |
| FlowReach.AcceptedFlowFailsAtNote | src/flow/interpreter.rs:1138-1142 | the static check accepts a flow of three nodes with a run that fails at its note |
| SigningBytes.UpdateBytesInjective | src/channel/state.rs:38-47 | equal signing bytes mean equal id, nonce, balances and whole-second time |
| SigningBytes.CloseBytesInjective | src/channel/state.rs:226-235 | the same for close requests |
| SigningBytes.UpdateLayout | src/channel/state.rs:38-47 | the bytes of an update byte by byte: the id, then nonce, local and remote balance and whole seconds, eight bytes each, lowest first |
| SigningBytes.CloseLayout | src/channel/state.rs:226-235 | the bytes of a close request: "close:", the id, then local and remote balance, nonce and whole seconds |
| SigningBytes.SecondsMeans | src/channel/state.rs:45 | the time signed is the whole second an instant falls into, before 1970 too |
| SigningBytes.UpdateLooksLikeClose | src/channel/state.rs:226-235 | an update shares its bytes with some close request exactly when its channel id begins with "close:" |
| SigningBytes.UpdateIsNotClose | src/channel/mod.rs:62-70 | generated ids begin with "chan_", so the two kinds of message never share bytes |
| SigningBytes.VerifiedIsSigned | src/channel/state.rs:50-112 | a signature verifies only with the signer's key and for the update it was made for, up to fractions of a second |
| Channel.Create | src/channel/mod.rs:147-170 | the two balances of a new channel add up to its capacity |
| Channel.PaymentSucceedsIff | src/channel/mod.rs:173-215 | a payment succeeds if and only if the channel is open and not expired, the balance covers it and a nonce is left; it moves exactly the amount, counts one update, and the update says what is left; a failed one changes nothing and says why |
| Channel.ReceiptSucceedsIff | src/channel/mod.rs:218-250 | a receipt succeeds if and only if the channel is open and not expired, the nonce is the next and the balances add up to the capacity; the balances are then exchanged; a failed one changes nothing and says why |
| Channel.PaymentChannel.constructor | src/channel/mod.rs:147-170 | a new channel is opening, with balances that add up |
| Channel.PaymentChannel.CreatePayment | src/channel/mod.rs:188-215 | moves the amount and counts one nonce; keeps local + remote = capacity; a failed call changes nothing |
| Channel.PaymentChannel.ReceivePayment | src/channel/mod.rs:218-249 | adopts exactly the next nonce with balances that add up, mirrored; a failed call changes nothing |
| ChannelProtocol.PayKeepsAgreement | src/channel/mod.rs:188-215 | a payment keeps a common ledger, extending it if it succeeds, unless it succeeds at an endpoint that is behind |
| ChannelProtocol.DeliveryKeepsAgreement | src/channel/mod.rs:218-249 | any delivery, late or repeated, keeps both ends explained by the same ledger |
| ChannelProtocol.TurnTakingAgrees | src/channel/mod.rs:188-249 | in every state of every turn-taking run one ledger explains both ends: each holds a prefix, so every payment is applied at most once and in order, nonce equals update count, and local + remote is the capacity |
| ChannelProtocol.AgreementMeansMirror | src/channel/mod.rs:240-246 | at equal nonces the views are mirrored, and always the two local balances together are at most the capacity |
| ChannelProtocol.OnePayerTakesTurns | src/channel/mod.rs:188-249 | with a single payer every run is turn-taking |
| ChannelProtocol.ReceiverMirrorsPayer | src/channel/mod.rs:188-249 | the receiver at nonce n applied exactly the payer's first n payments, once each and in order, and mirrors the payer's balances just after the n-th |
| ChannelProtocol.RunNumbers | src/channel/mod.rs:225-230 | in any run whatsoever an endpoint only appends to what it applied, with consecutive nonces |
| ChannelProtocol.LaggardCanCatchUp | src/channel/mod.rs:218-249 | delivering what is in flight in order brings the other end level |
| ChannelProtocol.RunsAreSound | src/channel/mod.rs:188-249 | in every run, turn-taking or not, an endpoint remembers as many payments as its nonce says, sent nothing with a higher nonce, and remembers of its peer only what the peer sent |
| ChannelProtocol.PaymentArrivesIff | src/channel/mod.rs:225-230 | in every reachable state a payment that succeeds can still reach the peer, in some continuation, if and only if its payer was not behind |
| ChannelProtocol.ClashIsForGood | src/channel/mod.rs:225-230 | after a payment made while behind no ledger explains both ends, in any continuation |
| ChannelProtocol.AgreesIff | src/channel/mod.rs:188-249 | a run ends with one ledger explaining both ends if and only if every successful payment in it was made by an endpoint that was not behind |
| ChannelTotals.RunsAddUp | src/channel/mod.rs:201-248 | in every run, whoever pays when, the balance, the number of updates and both totals of an endpoint are those of the payments it remembers |
| ChannelTotals.MoneyIsConserved | src/channel/mod.rs:201-248 | when two ends that took turns are level, each holds what it began with, less what it sent, plus what the other sent |
| ChannelTotals.ReceivedCountsNothing | src/channel/mod.rs:239-246 | in every turn-taking run both totals of money received stay zero |
| ChannelTotals.NothingMovesAfterExpiry | src/channel/mod.rs:173-180 | an endpoint whose channel has expired never changes again |
| ChannelManager.FromPeersIsSymmetric | src/channel/mod.rs:60-70 | the channel id does not depend on who asks |
| ChannelManager.FromPeersIsInjective | src/channel/mod.rs:60-70 | different peers get different channels, for colon-free peer ids and a collision-free digest |
| ChannelManager.Manager.constructor | src/channel/mod.rs:299-308 | a new manager has no channels, no index and no keys |
| ChannelManager.Manager.RegisterKey | src/channel/mod.rs:311-316 | files the key under the peer and changes nothing else |
| ChannelManager.Manager.Open | src/channel/mod.rs:324-367 | refuses a second channel with a peer, or without escrow; otherwise files a new channel and its index entry |
| ChannelManager.Manager.ConfirmOpen | src/channel/mod.rs:381-394 | opens an opening channel, and nothing else |
| ChannelManager.Manager.MakePayment | src/channel/mod.rs:397-413 | pays through the stored channel and returns the signed update |
| ChannelManager.Manager.TakePayment | src/channel/mod.rs:434-477 | applies an update only if signer, registered key, signature, nonce and balances are right, and remembers the signature |
| ChannelManager.Manager.StartClose | src/channel/mod.rs:486-521 | freezes an open or opening channel and signs its balances |
| ChannelManager.Manager.FinishClose | src/channel/mod.rs:527-586 | closes on a request signed by the peer whose balances add up, and drops the index entry |
| ChannelManager.Manager.ForceCloseExpired | src/channel/mod.rs:592-625 | closes an expired channel that is not closed, and drops the index entry |
| ChannelManager.ApplyKeepsIndex | src/channel/mod.rs:324-625 | every call keeps the index exact and the balances adding up |
| ChannelManager.CallsAlwaysRun | src/channel/mod.rs:324-625 | every sequence of calls is a run |
| ChannelManager.IndexIsExact | src/channel/mod.rs:324-625 | in every reachable state the index maps a peer to an id exactly when that channel is with the peer and not closed |
| ChannelManager.ApplyAdvances | src/channel/mod.rs:324-625 | every call moves every channel's status forwards or leaves it, except that a closed channel may be reopened |
| ChannelManager.StatusNeverGoesBack | src/channel/mod.rs:324-625 | over any stretch of a run without reopening the status only moves forwards, and from closing on only the status changes |
| ChannelManager.ClosingIsFrozen | src/channel/mod.rs:486-521 | from the close request on, the stored balances and nonce are those in the request |
| ChannelManager.AcceptedPaymentIsSigned | src/channel/mod.rs:434-477 | an accepted payment was signed with the key registered for the channel's peer, over these very numbers |
| ChannelCalls.FinalizeSucceedsIff | src/channel/mod.rs:527-586 | a request closes a channel if and only if this is open or closing, the key registered for its peer signed the request, and the request splits the capacity; a signature error is reported exactly if the signature is what fails |
| ChannelCalls.AcceptedCloseIsSigned | src/channel/mod.rs:541-559 | a request that closes a channel carries the very id, balances, nonce and whole-second time that its peer signed |
| ChannelCalls.PaymentClosesNothing | src/channel/mod.rs:557-559 | no signature made for a payment passes for one on a close request |
| ChannelCalls.IdsAreGenerated | src/channel/mod.rs:62-70 | in every reachable state every channel has an id that begins with "chan_", so that the last row applies to it |
| ChannelCalls.OwnRequestCloses | src/channel/mod.rs:486-518 | the request a peer issues names its own balances and nonce, and closes the channel at the other end exactly if that is open or closing, the key being registered |
| ChannelCalls.OwnPaymentArrivesIff | src/channel/mod.rs:397-478 | a payment a peer makes is accepted exactly if the channel is open here and not expired, and it is the next one here |
| ChannelCalls.PayViaIff | src/channel/mod.rs:397-413 | when a payment through the manager succeeds, all it changes, and that the update carries our signature |
| ChannelCalls.ReceiveViaIff | src/channel/mod.rs:434-478 | when a payment is accepted: from the channel's peer, signed with its key, next in line; all it changes; and when a signature error is reported |
| ChannelCalls.OpenSucceedsIff | src/channel/mod.rs:324-367 | in every reachable state a channel with a peer is opened exactly if the escrow succeeds and no channel with that peer is left unclosed; all its money is the funder's |
| ChannelCalls.StatusChangesIff | src/channel/mod.rs:381-624 | a channel's status changes exactly by confirming, closing, finalizing with the peer's signature, or forcing after expiry, each from the statuses it may start from, and nothing else about the channel changes with it |
| ChannelCalls.CallsSucceedIff | src/channel/mod.rs:381-624 | confirming succeeds exactly on an opening channel, closing on an opening or open one, forcing on an expired one that is not closed; a missing channel is reported as such, and a call that fails changes nothing |
| ChannelCalls.KeysStay | src/channel/mod.rs:311-316 | only registering a key changes a key, and only that of the peer named |
| SessionKeys.PaddedOrder | src/agent/session.rs:65-67 | zero-padded indices of up to ten digits sort like the numbers |
| Text.DecimalReadsBack | src/agent/session.rs:65-67 | decimal notation stands for its number and has no superfluous zero |
| SessionKeys.KeysSortByIndex | src/agent/session.rs:65-67 | the keys of one session sort by turn index |
| SessionKeys.KeysAreDistinct | src/agent/session.rs:65-67 | session and index can be read back from a key |
| SessionKeys.InScanMeans | src/agent/session.rs:70-77 | a scan visits exactly the keys with the session's prefix that continue with something up to ten nines |
| SessionKeys.OwnKeysInScan | src/agent/session.rs:70-77 | and so all keys of the session itself |
| SessionKeys.ForeignKeyInScan | src/agent/session.rs:70-77 | exactly when a scan reaches another session's key: when the other id continues the first one and a NUL with something below the upper bound |
| SessionKeys.NulFreeKeysStayOut | src/agent/session.rs:70-77 | never, for ids without NUL |
| SessionKeys.OrderEndsAtLimit | src/agent/session.rs:65-67 | ten digits are the exact bound: the first longer key sorts before its predecessor |
| SessionStore.ScanIsHistory | src/agent/session.rs:160-170 | a scan of sound tables yields the session's turns by index and nothing else |
| SessionStore.SaveAppends | src/agent/session.rs:99-149 | saving appends to one session's history and leaves every other alone |
| SessionStore.ClearRemoves | src/agent/session.rs:181-207 | clearing removes exactly the named sessions |
| SessionStore.PruneKeepsFresh | src/agent/session.rs:228-250 | pruning keeps exactly the sessions updated after the cutoff, metadata and turns unchanged |
| SessionStore.Store.SaveTurn | src/agent/session.rs:99-149 | both tables after a save, and what this means for the histories |
| SessionStore.Store.Scan | src/agent/session.rs:160-170 | the keys in range, in byte order |
| SessionStore.Store.LoadSession | src/agent/session.rs:152-178 | the newest turns of the session, oldest first: as many as asked for if there are so many, with only older ones before them |
| SessionStore.Store.ClearSession | src/agent/session.rs:181-207 | both tables after a clear: that session is gone, every other history is as it was |
| SessionStore.Store.StaleSessions | src/agent/session.rs:230-243 | the ids read from the metadata rows at or before the cutoff, one per row |
| SessionStore.Store.PruneOld | src/agent/session.rs:228-250 | both tables after clearing the stale sessions one by one, and their number in 32 bits |
| SessionRuns.RunRefines | src/agent/session.rs:99-250 | after every run of saves, clears and prunes the tables hold, per session, exactly the turns since it was last removed, under the time of the last turn and the title of the first thing said |
| SessionRuns.ScanReadsSession | src/agent/session.rs:152-178 | and a scan then reads that session alone |
| SessionRuns.LoadReadsNewest | src/agent/session.rs:152-178 | loading after any run of calls yields the newest of the turns saved since the session was last cleared or pruned |
| SessionRuns.SessionsAreApart | src/agent/session.rs:99-245 | what a session holds depends only on the saves and clears under its id, and on prunes |
| Budget.BudgetTracker.constructor | src/agent/budget.rs:32-46 | nothing spent, both windows beginning now |
| Budget.BudgetTracker.ResetIfNeeded | src/agent/budget.rs:49-61 | a window restarts exactly when 3600 (86400) whole seconds have gone by |
| Budget.BudgetTracker.CanSpend | src/agent/budget.rs:64-71 | asks all four limits after restarting windows that are over |
| Budget.BudgetTracker.Spend | src/agent/budget.rs:74-80 | charges all four counters after restarting windows that are over |
| Budget.BudgetTracker.NewRequest | src/agent/budget.rs:83-85 | resets the counter of the request alone |
| BudgetRuns.CostAddsUp | src/agent/runtime.rs:136 | a thousand tokens cost half a coin, and costs add up |
| BudgetRuns.LookKeeps | src/agent/budget.rs:49-61 | nothing has been charged in a window that just restarted, so the counters stay the totals of their groups |
| BudgetRuns.RunsAreGood | src/agent/budget.rs:49-85 | in every run the four counters are the totals of the task, the windows and the lifetime in progress, and windows lie a full length apart |
| BudgetRuns.PayStaysBounded | src/agent/budget.rs:64-80 | a charge keeps every group within its limit if and only if it fits the counters of the moment |
| BudgetRuns.CheckedReplyFits | src/agent/runtime.rs:341-393 | a reply no longer than the estimate that was checked fits when it arrives, even if windows restarted meanwhile |
| BudgetRuns.WithinLimitsIff | src/agent/runtime.rs:341-393 | throughout a run no task, hour, day or lifetime exceeds its limit if and only if every unchecked charge of the shared loop fitted |
| BudgetRuns.DirectLoopStaysWithin | src/agent/runtime.rs:310-394 | so an agent on the direct loop never exceeds a limit |
| BudgetRuns.PrecheckedStaysWithin | src/agent/runtime.rs:693-695 | a condition known beforehand: if the budget had been asked for twenty replies of full length before each task of the shared loop, no limit would ever be exceeded |
| BudgetRuns.ThreeWindowsAreFarApart | src/agent/budget.rs:49-61 | charges in three different windows are at least one window length apart |
| BudgetRuns.AnyInterval | src/agent/budget.rs:49-80 | any interval of one window length, wherever it lies, costs at most twice the limit |
| BudgetRuns.TwiceTheLimitInOneSecond | src/agent/budget.rs:49-80 | and the factor two is reached, within one second |
| BudgetRuns.SharedLoopOverspends | src/agent/runtime.rs:693-695 | a task of the shared loop alone can exceed the lifetime limit |
| AgentLoop.TaskStaysWithinRequest | src/agent/runtime.rs:310-394 | one task costs at most the request limit, whatever the clock does |
| AgentLoop.TaskContinuesRun | src/agent/runtime.rs:310-394 | a task of the direct loop continues the run of its budget's history by the events of its questions |
| AgentLoop.TaskKeepsLimits | src/agent/runtime.rs:310-394 | if every earlier charge of the shared loop fitted, all limits hold after a task: those of every task, hour, day and of the lifetime |
| AgentLoop.TaskCosts | src/agent/runtime.rs:341-393 | a task costs the tokens of the questions the budget allowed, which are all but perhaps the last |
| AgentLoop.AgentRuntime.RunTask | src/agent/runtime.rs:265-597 | the loop asks at most twenty times, goes on exactly after tool calls nothing interrupted, reports the reason it stopped and the tokens it used, which are what the budget is charged, leaves the budget as the run continued by its questions does, and keeps all limits |
| UnifiedLoop.FilterRepeats | src/agent/unified_loop.rs:464-492 | the filter loop computes `Admit`: history, calls let through, and warnings from the third request on |
| UnifiedLoop.Merged | src/agent/unified_loop.rs:525-530 | merging loses no call |
| UnifiedLoop.MergeDuplicates | src/agent/unified_loop.rs:525-530 | the retain loop keeps the first occurrence of every call |
| UnifiedLoop.ExecuteCalls | src/agent/unified_loop.rs:588-737 | every call, run or refused, leaves one record and one log line, in order, and failures are counted |
| UnifiedLoop.UseTools | src/agent/unified_loop.rs:459-764 | the tool part of a pass: filter, merge, cap at four, execute, count all-fail rounds; or an answer if all calls are refused |
| UnifiedLoop.Run | src/agent/unified_loop.rs:297-767 | the loop ends exactly as the pass relation says, within twenty passes |
| UnifiedLaws.AdmitRecords | src/agent/unified_loop.rs:464-492 | the history grows by exactly the signatures let through |
| UnifiedLaws.AdmitCounts | src/agent/unified_loop.rs:466-491 | after any number of requests for a signature the history holds that many, or four |
| UnifiedLaws.HistoryCountsRequests | src/agent/unified_loop.rs:466-491 | in every state of every run the history counts all requests so far, up to four of each |
| UnifiedLaws.AdmittedIff | src/agent/unified_loop.rs:466-491 | a call passes the filter if and only if fewer than four with its signature were requested before it in the run, and draws a warning if and only if two or three were |
| UnifiedLaws.MergedGrows | src/agent/unified_loop.rs:525-530 | merging keeps first occurrences in place: further calls only append |
| UnifiedLaws.MergedIsDistinct | src/agent/unified_loop.rs:525-530 | merged calls are pairwise different |
| UnifiedLaws.BatchMeans | src/agent/unified_loop.rs:525-567 | a pass executes at most four pairwise different calls, all of them let through, and all of those if fewer than four |
| UnifiedLaws.BatchIsFirstFour | src/agent/unified_loop.rs:525-567 | these are the first four of the merged calls, or all of them |
| UnifiedLaws.ReachableIsBounded | src/agent/unified_loop.rs:297-764 | in every reachable state: rounds of one to four different calls, at most one round or nudge a pass, at most two nudges of each kind, and a failure counter that counts the all-fail rounds at the end |
| UnifiedLaws.ExecutedAtMostFourTimes | src/agent/unified_loop.rs:466-764 | no signature is executed more than four times in a run |
| UnifiedLaws.RunsEndWithin | src/agent/unified_loop.rs:297-767 | an answer at pass i comes with one log line per record and at most 4(i - 1) records; the passes run out only if the last one still ran tools or met an error text |
| UnifiedLaws.OutcomeIsUnique | src/agent/unified_loop.rs:297-767 | a run has one outcome |
| UnifiedLaws.RefusedAfterOneExecution | src/agent/unified_loop.rs:464-530 | five identical calls in one reply run once, and the call is refused ever after |
| UnifiedOutcomes.GetsPastIff | src/agent/unified_loop.rs:297-764 | a run gets past a pass if and only if it goes on after each one up to there: not stopped, not failed, a reply without calls met by a nudge, and one with calls not refused as a whole. Its nudges to fetch are then the fetches missed, two at most; its other nudges all other replies without calls; and its rounds one for each reply with calls |
| UnifiedOutcomes.OutcomeIff | src/agent/unified_loop.rs:297-767 | the exact condition for every outcome in terms of the passes: stopped, failed, or answered at the first pass after which the run does not go on, with the records of all calls let through before, or out of passes after twenty |
| UnifiedOutcomes.AdmitsLetThrough | src/agent/unified_loop.rs:464-492 | the filter lets through exactly the calls that fewer than four requests with their signature came before |
| CompactionLaws.CutsAtABreak | src/agent/compaction.rs:54-68 | a long text is cut at the last line break within the limit, else at the last space, else at the limit, and what stood before the cut stays |
| Compaction.RemovalIsDrop | src/agent/compaction.rs:118-122 | removing collected positions back to front amounts to filtering the stretch, and the size falls by what was removed |
| Compaction.Conversation.FindProtectedBoundary | src/agent/compaction.rs:178-193 | the backward count finds the boundary |
| Compaction.Conversation.TruncateOld | src/agent/compaction.rs:94-104 | the first pass in place, with its running size |
| Compaction.Conversation.DropOld | src/agent/compaction.rs:110-122 | a dropping pass in place, with its running size |
| Compaction.Conversation.Prune | src/agent/compaction.rs:81-173 | the conversation after pruning, pass by pass, with the boundary recomputed where the code does |
| CompactionLaws.TruncationShrinksIff | src/agent/compaction.rs:54-68 | cutting a text makes it no longer if and only if at least 32 characters go, and at most thirty longer |
| CompactionLaws.TrimSizeExactIff | src/agent/compaction.rs:94-104 | the running size of the first pass is the true one if no result grows, and zero otherwise |
| CompactionLaws.TrimExactIff | src/agent/compaction.rs:94-104 | the same for the whole conversation, as an equivalence |
| CompactionLaws.RemovalStaysExact | src/agent/compaction.rs:118-122 | removing one message from a conversation of exactly known size subtracts no more than there is and leaves the size exact |
| CompactionLaws.RemovalsStayExact | src/agent/compaction.rs:118-122 | so the size is exact after every single removal of a pass, and no subtraction saturates |
| CompactionLaws.DropStaysExact | src/agent/compaction.rs:118-122 | and after the whole pass |
| CompactionLaws.BoundaryMeans | src/agent/compaction.rs:178-193 | with four questions the boundary is the fourth-last of them, with fewer it is the last message |
| CompactionLaws.TailIsStable | src/agent/compaction.rs:128-148 | recomputing the boundary after changes before it never shrinks the protected tail, and with four questions keeps it |
| CompactionLaws.DropLeaves | src/agent/compaction.rs:110-166 | a dropping pass leaves a subsequence |
| CompactionLaws.PruningKeeps | src/agent/compaction.rs:81-173 | for every conversation and limit: the first message and the tail survive, system messages between them too, and of the rest tool results may be cut and messages dropped, nothing reordered or added |
| CompactionLaws.RecentTurnsSurvive | src/agent/compaction.rs:81-193 | with four questions the tail from the fourth-last survives word for word, and is again the last four questions |
| CompactionLaws.DropClears | src/agent/compaction.rs:131-166 | a pass leaves nothing of its kind before the boundary, and the boundary where it was |
| CompactionLaws.PruningFits | src/agent/compaction.rs:86-173 | if no tool result grows, the result fits or holds only system messages between the first message and the protected tail |
| PruningOutcome.GrowthEndsPruning | src/agent/compaction.rs:97-108 | if one grows, pruning ends after the first pass |
| PruningOutcome.PruningFitsIff | src/agent/compaction.rs:86-173 | for every conversation and limit: the result fits, or holds only system messages before its protected tail, if and only if nothing had to be pruned, no tool result grows, or the conversation after cutting already does |
| PruningOutcome.GrowthDoesNotFit | src/agent/compaction.rs:97-108 | a growing tool result between two messages: under every limit that calls for pruning the result is larger than before and does not fit |
| PruningOutcome.SomeResultGrows | src/agent/compaction.rs:54-68 | such tool results exist: 507 characters become 528 |
| PruningOutcome.SurvivesIff | src/agent/compaction.rs:81-193 | for every conversation, position and limit: the messages from there on come through word for word if and only if they are spared by each pass that the sizes call for |
| PruningOutcome.SurvivesFrom | src/agent/compaction.rs:81-193 | a question survives with everything after it exactly from a limit on, which is the size after one of the passes, or zero |
| PruningOutcome.AlwaysSurvivesIff | src/agent/compaction.rs:81-193 | under every limit survive exactly: if no tool result grows, the questions with no tool result between them and the boundary that are the last message, or among the last four with four in the conversation after cutting; if one grows, those behind which cutting changes nothing |
| PruningOutcome.PlainTalkSurvivesIff | src/agent/compaction.rs:178-193 | without tool results before the boundary: exactly the last four questions, if there are four, and a last message |
| PruningOutcome.FewQuestionsLoseTurns | src/agent/compaction.rs:178-193 | with fewer than four questions after cutting, every question but a last message is lost with what follows it, under every limit below the size left without earlier tool results and replies |
| PruningOutcome.ExchangeIsLost | src/agent/compaction.rs:178-193 | in the smallest case a question and its reply are both gone, under every limit below what is left without the reply |
| PruningOutcome.BecomesQuestionIff | src/agent/compaction.rs:46-68 | a cut tool result counts as a question from then on if and only if the cut falls inside its marker |
| PruningOutcome.FirstMessageIff | src/agent/compaction.rs:166-173 | for every conversation and limit: the first message stays as it is, except that a system prompt of more than 2000 characters is cut within them exactly if the size after the last pass still exceeds the limit |
| PruningOutcome.LongPromptIsCut | src/agent/compaction.rs:166-173 | if no tool result grows, a result that does not fit has its long system prompt cut |
| RateLimiter.RateLimiter.constructor | src/channels/channel.rs:156-164 | both counts are zero and both windows begin now |
| RateLimiter.RateLimiter.CheckAndIncrement | src/channels/channel.rs:167-205 | an uninterrupted call: allowed exactly below both limits after restarting windows, and then counted twice |
| RateLimiter.StepStaysWithin | src/channels/channel.rs:167-205 | counts plus callers about to count never exceed limit + k - 1 |
| RateLimiter.CountsStayWithin | src/channels/channel.rs:167-205 | however k callers interleave and whenever windows restart, no count exceeds limit + k - 1, and with one caller none exceeds the limit |
| RateLimiter.UninterruptedCall | src/channels/channel.rs:167-205 | the atomic steps of one caller, run without interruption, make up the sequential call |
| RateLimiter.MinuteBoundIsReached | src/channels/channel.rs:167-205 | for any number of callers some interleaving takes the minute count to limit + k - 1, if the hour limit is at least the minute limit |
| RateLimiter.HourBoundIsReached | src/channels/channel.rs:167-205 | and the hour count, if the hour limit is at most sixty minute limits |
| RateWindows.CountersAreCounts | src/channels/channel.rs:167-205 | after any calls in a row the counters hold the calls allowed in the windows in progress |
| RateWindows.AllowedIff | src/channels/channel.rs:167-205 | a call is allowed if and only if those allowed in its minute and in its hour leave room |
| RateWindows.HourIsReleased | src/channels/channel.rs:180-190 | a call an hour after the hour's window began is allowed exactly if the hour limit is positive and the minute has room |
| RateWindows.MinuteIsReleased | src/channels/channel.rs:170-178 | a call a minute after the minute's window began is allowed exactly if the minute limit is positive and the hour has room |

## Left out

- Outside work: language models, tools, condition expressions, guardrail checks and MCP calls are arbitrary values or
  outcomes; peer-to-peer networking, web server, command line and user interface are not part of this model.
- FlowInterpreter.RunInterpreter: template interpolation, the `outputs` and `state` maps and the values of transforms
  are not modelled; an action yields any text or fails.
- FlowOrder.RunLegacy: the wording of the prompt is not modelled, only which outputs go into it; one flag stands for a
  node's crew specification, and an invalid specification is a failed step.
- FlowTermination.RunsHalt: the bound is not claimed to be the longest run; a flow over it may still end in time.
- Channel.PaymentChannel.CreatePayment: running out of 64-bit nonces counts as a failed call that changes nothing; the
  totals of amounts sent and received are unbounded.
- ChannelProtocol.TurnTakingAgrees: the endpoint that did not fund the channel has no constructor in the code; it begins
  as the mirror image of the funder's.
- ChannelManager.Manager.Open: escrow succeeds or fails, and the expiry is a parameter; every call of the manager is one
  atomic step, although some of them release and take locks in between.
- Signatures are ideal and the digest behind channel ids does not collide; hexadecimal decoding, peer payments through
  the index (`pay_peer`), listings and statistics are left out, as is the type `ChannelState`, whose methods only set
  and read fields.
- SessionStore.Store.SaveTurn: a transaction is one step; durability, serialization and their errors, listing sessions
  and the 64-bit wrap of turn counts are left out.
- Strings are sequences of ASCII characters: byte lengths and character counts coincide, and cuts never fall inside a
  character.
- Budget.BudgetTracker.Spend: amounts are real numbers, not floating point.
- AgentLoop.AgentRuntime.RunTask: the conversation, the answer text and the tools of a pass are left out, and the token
  count is unbounded.
- UnifiedLoop.Run: the conversation text, prompts, progress events, the choice of the answer's wording and the pruning
  of the prompt string are left out; the predicates behind nudges are arbitrary truth values.
- Compaction.Conversation.Prune: sizes of conversations themselves do not overflow; the summary prompt and
  `prune_string_conversation` are left out.
- CompactionLaws.PruningFits: conversations within thirty bytes of the largest 64-bit size are not covered.
- PruningOutcome.PruningFitsIff: the same.
- PruningOutcome.AlwaysSurvivesIff: the same.
- SessionStore.Store.PruneOld: the source reads the stale sessions in one transaction and clears each in another; here
  the call is one step, so a turn saved in between, which the source would clear too, is not modelled.
- FlowReach.AllRunsEndIff: conditions, verdicts and actions are free at every step; that a particular expression can
  never take some value is not considered.
- ChannelProtocol.PaymentArrivesIff: arriving means in some continuation, in which the peer may pay too; the network is
  not obliged to deliver.
- RateLimiter.HourBoundIsReached: the exact reach of a count whose limit the other limit rules out is not stated.
- RateLimiter.CountsStayWithin: counters are unbounded, and the burst setting, which the code does not read, is left
  out.
