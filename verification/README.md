# Verification of the canister libraries' stateful cores

A Dafny model of the parts of this repository that keep money, tasks and stored data consistent,
with proofs about them. `dafny verify dfyconfig.toml` checks everything.

## What is modelled

**Payments (`ic-payments`).** The token terminal moves tokens with one- and two-step transfers
against a remote ICRC-1 ledger that may execute a request and still answer "maybe failed".
`Terminal` states the protocol as functions on a world (ledger, clock, configuration, balances,
recovery list, and a log of every remote call with the state it left); `TokenTerminals` is the object
with its fields, each method refining one of these functions. The environment (`Env`) picks, for every
remote call, the elapsed time, the fee the ledger asks for, whether the call is served, lost before or
after execution, refused, trapped or busy, and any tokens other people send meanwhile; results hold for
every environment. The ledger (`Ledgers`) is an assumption of the model: it deduplicates as the
"Transaction deduplication" section of the ICRC-1 standard demands, and `SubmitContract` proves that it
does so whatever the environment picks.

- `TerminalBudget`: bounded calls for every reply sequence. No hypotheses.
- `TerminalReplies`, `TerminalCallers`: from any world, which calls an operation makes and how it ends, read off
  the replies, amounts, accounts and ages. No hypotheses.
- `TerminalRepricing`: what a changed fee or minting account makes of the recovery list.
- `TerminalOutcome`, `TerminalCalls`: exactly-once outcome of transfers, deposits, withdrawals.
- `TerminalSolvency`, `TerminalRuns`, `TerminalThroughout`: the main account covers the user balances
  at the end of every run and at every remote call inside it.
- `TerminalFresh`: that over whole runs interim accounts do not repeat, from what callers see.
- `TerminalRecovery`, `TerminalRecoverAll`: what recovery makes of each listed transfer, from any world at
  any fees, and in every reachable world in terms of the ledger, the balances and the list.
- `TerminalClashes`, `TerminalOvertaking`: exactly when recovery can lose a transfer, and a run that does.
- `TerminalFees`: what fee changes do, and exactly when they do no harm.
- `TerminalHoles`: other concrete runs that go wrong.

The hypotheses of the strong guarantees are visible in the lemmas and can be checked from outside:

- `Steady`: no `BadFee` reply arrives during the operation. The terminal sees every such reply. The
  budget, `RecoverTxAccounted`, `TransferAccounted` and `RecoverAllAccounted` do not need it, and
  `TerminalFees` says what happens without it.
- `FreshWithdrawal` / `InterimUnused`: a new withdrawal's interim account was never used, and the caller
  does not own the minting account; nor does the canister (`Genesis`). `TerminalFresh` derives this from
  withdrawals that differ in caller, amount or clock reading.
- `InWindow` / `Undisturbed`: an attempt returns inside the deduplication window; the terminal itself
  reserves five minutes of it.
- `ValidOrder`: the stable map lists every key once.
- `ClashFree` or `Ticking`, only where said: no two listed transfers may clash, or time passes with every
  remote call.

Where comments or documentation promise more than the code does, the code is followed:

- A double-step transfer can be recovered at any time (`ic-payments/src/lib.rs:28-33`); a failing balance
  query drops one (`RecoverableButDropped`).
- Once the first step has succeeded the transfer stays on the list until it completes
  (`ic-payments/src/lib.rs:31-33`); one that was re-priced beyond its amount is lost (`RepricedIsStranded`).
- The list may keep one of two transfers with the same identifier, because the ledger would execute only
  one (`ic-payments/src/recovery_list.rs:94-98`); but the identifier covers neither the interim account nor
  the memo, and the ledger would execute both (`EqualWithdrawalsOvertake`, `LosesNothingIff`).
- Retries are safe (`ic-payments/src/lib.rs:54-55`); across a fee change they can pay twice
  (`FeeChangePaysTwice`) or refund what was executed (`FeeChangeRefundsExecuted`). `RecognisedIff`,
  `TransferRefused` and `RefundAtRisk` give the conditions.
- After a `BadFee` error the transfer can be attempted again (`ic-payments/src/error.rs:48-54`); when the
  minting account could not be read, a debited withdrawal is gone (`MinterFailureLoses`, `WrongFeeSafeIff`).
- The fee makes sure that the credited amount is the received one (`ic-payments/src/lib.rs:99-102`); it is,
  but not always the one the deposit reports (`DepositMisreports`, `DepositReportIff`).
- `set_fee` re-prices the list and zeroes creation times, which can merge entries
  (`RepricingKeepsAllIff`, `RepricingMergesDeposits`).

**Task scheduler (`ic-task-scheduler`).** `Scheduling` is a state machine whose steps are the
uninterrupted pieces of code between await points, in any order with any clock readings; live futures
and completion callbacks are ghost histories. `Schedulers` is the object, each method tied to a step.
An execution that returns after its task was removed for timeout makes the code unwrap a missing
entry or re-insert the task; the results say exactly when.

**Structures that agree with a simple one.** `RingBuffers` (wrapped vector against a bounded deque),
`LogWriter` (paging by absolute offset against the full history), `CachedMaps` and `Multimaps` (LRU
caches over stable maps against plain maps, with arbitrary eviction).

**Smaller cores.** `StableStorage` and `VersionedStorage` (paged memory, chunked writer, recursive
upgrade), `Metrics` (bounded history), `Tokens` (128- and 256-bit amounts), `Retry` (backoff).

The table lists the theorems and the methods that refine the code; setters, getters and helper lemmas
carry contracts too, but have no row.

## Model

| member | source | states |
|---|---|---|
| `Transfers.AcceptedIffPayable` | ic-payments/src/transfer.rs:230-247 | a transfer is accepted if and only if source and target differ and the amount exceeds every fee it will pay; the zero-amount branch is unreachable |
| `Transfers.RefusalTold` | ic-payments/src/transfer.rs:230-247 | a transfer to its own source account is refused as such; every other refusal names the actual amount and, as minimum, exactly the smallest amount that would be accepted |
| `Transfers.DoubleStepAgain` | ic-payments/src/transfer.rs:131-141 | `double_step` changes only the type: first step, through the interim account already chosen, or the generated one |
| `Transfers.SecondStepAgrees` | ic-payments/src/transfer.rs:337-349 | the second step of an accepted transfer is accepted whenever it is created, delivers the final amount promised for the whole, and takes from the interim account exactly what the first step put there |
| `Transfers.SecondStepAcceptedIff` | ic-payments/src/transfer.rs:230-349 | at any fee, the second step is accepted if and only if the first one is |
| `Transfers.ChargedExactly` | ic-payments/src/transfer.rs:272-290 | the account of the current step is charged exactly `amount`, and a last step delivers the final amount |
| `Transfers.InterimAccountsDistinct` | ic-payments/src/transfer.rs:131-228 | a generated interim account is neither source nor target, and two transfers share one if and only if all hashed fields agree (caller, memo, fee and operation are not hashed) |
| `Subaccounts.GetPrincipalSubaccount` | ic-payments/src/token_terminal.rs:517-523 | the loop and the length byte yield 32 bytes: length, principal, zeros |
| `Subaccounts.SubaccountsDistinct` | ic-payments/src/token_terminal.rs:517-523 | two principals have the same deposit subaccount if and only if they are equal, and only the empty one has the default subaccount; `Transfers.PrincipalSubaccount` stands for it |
| `PaymentErrors.ErrorsTold` | ic-payments/src/error.rs:152-162 | the public error tells internal errors apart, keeps the expected fee, and is recoverable exactly for `MaybeFailed` |
| `Ledgers.SubmitContract` | ic-payments/src/lib.rs:54-75 | about the assumed remote ledger, whose deduplication the terminal relies on: a call executes at most the submitted request and never an executed one again; `Duplicate` names the earlier execution; every definite failure means that this call executed nothing and, inside the window and except for `BadFee`, that the request is not executed at all (a `BadFee` reply does not exclude an execution by an earlier call) |
| `TerminalBudget.TransferBudget` | ic-payments/src/token_terminal.rs:235-303 | for every reply sequence, fee changes included, `transfer(t, n)` issues at most max(n, 1) ledger transfers, plus one for a double step; time and ledger only move forward (termination is the lexicographic measure of the functions) |
| `TerminalBudget.RecoveryBudget` | ic-payments/src/token_terminal.rs:407-432 | the same shared budget for a recovery attempt |
| `TerminalBudget.RecoverTxBudget` | ic-payments/src/token_terminal.rs:376-385 | recovering one listed transfer costs at most the three retries, plus one for a first step |
| `TerminalOutcome.TransferExactlyOnce` | ic-payments/src/token_terminal.rs:235-303 | main result: an invalid transfer changes nothing; any other ends, for every reply sequence without a `BadFee` reply, in exactly one of three ways: settled with every step executed, the final amount delivered and the credit given once; listed without credit; or failed with nothing executed and the agreed refund given once |
| `TerminalOutcome.SettledMovesOnce` | ic-payments/src/token_terminal.rs:241-268 | in a settled transfer each movement occurs exactly once among the executed requests |
| `TerminalOutcome.RecoveryOutcome` | ic-payments/src/token_terminal.rs:407-432 | a recovery attempt, whatever happened before it, ends in one of the same three ways: an execution hidden by a lost reply is neither repeated nor refunded |
| `TerminalOutcome.CompleteOutcome` | ic-payments/src/token_terminal.rs:251-268 | so does `complete` of an executed step: the next step runs, or the final amount is credited once |
| `TerminalOutcome.SecondLeg` | ic-payments/src/token_terminal.rs:251-268 | an executed first step never ends in a failure: settled or listed |
| `TerminalOutcome.CallContract` | ic-payments/src/token_terminal.rs:387-432 | what the code may conclude from each reply: success and `Duplicate` mean executed, a rejected first attempt or a definite refusal means not executed |
| `TerminalOutcome.RecognisedIff` | ic-payments/src/token_terminal.rs:407-432 | a whole retry of an executed request: it is recognised and completed without a further movement if and only if the deciding call is not served with another fee; then it is re-priced into a new request, and without a deciding call it stays listed |
| `TerminalOutcome.OldFirstStepOutcome` | ic-payments/src/token_terminal.rs:473-484 | an old first step recovered through its interim account ends in the three ways when the account is non-empty exactly if the step was executed |
| `TerminalOutcome.OldSecondStepOutcome` | ic-payments/src/token_terminal.rs:473-492 | an old second step completes once with the unknown id if its interim account is empty, and is renewed otherwise |
| `TerminalReplies.RepliesRead` | ic-payments/src/error.rs:113-150 | what each fate of a call is read as: only a lost one as unclear, a definite refusal with the ledger's own reason |
| `TerminalReplies.AttemptByReplies` | ic-payments/src/token_terminal.rs:387-457 | main result, for every world, configuration and reply sequence: the log of an attempt is the same request repeated while replies are unclear and attempts are left; exhausted attempts list it; a confirmation goes on with the second step and the attempts left, or credits once; a refusal lists a second step and refunds anything else as agreed; a fee reply re-prices |
| `TerminalReplies.RepricesRightly` | ic-payments/src/token_terminal.rs:434-467 | after a fee reply an unknown fee is configured; for zero or the configured fee the minting account is asked for (management canister if there is none), and without an answer the transfer ends with that error; the list is re-priced, and the transfer tried again with the attempts left, at no fee if the minting account is an end of its current step and at the configured one otherwise |
| `TerminalReplies.RejectSpec` | ic-payments/src/token_terminal.rs:270-293 | whatever the error, a rejected second step is listed and reported recoverable, naming a wrong fee; anything else is refunded if agreed and reports its error |
| `TerminalCalls.DepositOutcome` | ic-payments/src/token_terminal.rs:180-203 | a deposit credits exactly what it reports and what one request moved from the caller's own deposit account to the main account; a recoverable one is listed uncredited; a failed one moved nothing |
| `TerminalCalls.WithdrawOutcome` | ic-payments/src/token_terminal.rs:210-233 | a successful withdrawal sent `amount` less two fees in two movements; a failed one restored the balance in full; a recoverable one is debited and listed |
| `TerminalCallers.DepositByReplies` | ic-payments/src/token_terminal.rs:180-203 | main result: a deposit too small for its fee, or of the management canister, is refused without a call and with the reason; any other is tried three times as a request from the caller's own deposit account to the main account, at no fee if one of them is the minting account |
| `TerminalCallers.DepositAccountsApart` | ic-payments/src/token_terminal.rs:189-195 | deposits of two callers are drawn from the same account if and only if the callers are the same |
| `TerminalCallers.WithdrawByReplies` | ic-payments/src/token_terminal.rs:210-233 | main result: a withdrawal to the canister itself, below two fees, or above the balance is refused without a call and each with its reason; any other is debited in full before the first call and tried three times |
| `TerminalCalls.RepricingKeepsAllIff` | ic-payments/src/token_terminal.rs:327-344 | re-pricing for a new fee or minting account zeroes creation times, which are hashed: every listed transfer survives if and only if no two re-priced ones differ but agree on the other hashed fields |
| `TerminalRepricing.ConfigurationSet` | ic-payments/src/token_terminal.rs:327-344 | `set_fee` and `set_minting_account` change that field and nothing else but the list: every entry is an earlier one with creation time zero and the fee the new configuration prescribes between its end accounts; every earlier transfer keeps an entry under its re-timed identifier, its own unless another is alike |
| `TerminalCalls.DepositReportIff` | ic-payments/src/token_terminal.rs:180-203 | with one ledger fee throughout and no minting endpoint, a successful deposit credits exactly what reached the main account, and reports that amount if and only if the ledger's fee is the configured one |
| `TerminalSolvency.AttemptSafe` | ic-payments/src/token_terminal.rs:241-303 | one attempt keeps the main account covering balances and reserved amounts, with the listed remainder in place of the transfer |
| `TerminalSolvency.RestSafe` | ic-payments/src/token_terminal.rs:241-303 | an attempt leaves every other live transfer's interim account and reserve as they were |
| `TerminalSolvency.NextStepSafe` | ic-payments/src/token_terminal.rs:251-268 | the second step inherits an interim account that holds exactly its amount, or nothing once it is paid |
| `TerminalRuns.RecoverTxSafe` | ic-payments/src/token_terminal.rs:376-385 | recovering one listed transfer keeps the books balanced, failing balance queries and dropped transfers included |
| `TerminalRuns.TakesAll` | ic-payments/src/recovery_list.rs:103-109 | `take_all` hands out exactly the listed transfers, each once |
| `TerminalRuns.RecoverAllSafe` | ic-payments/src/token_terminal.rs:362-374 | so does `recover_all` |
| `TerminalRuns.StepInv` | ic-payments/src/token_terminal.rs:180-385 | every operation keeps the global invariant |
| `TerminalRuns.SolventRun` | ic-payments/src/token_terminal.rs:180-385 | in any run of deposits, withdrawals, recoveries and idle time the invariant holds and the main account covers the sum of the balances |
| `TerminalRuns.SolventFromGenesis` | ic-payments/src/token_terminal.rs:180-385 | main result: the same from the start of a canister, with only the hypotheses listed above |
| `TerminalThroughout.AttemptSolvent` | ic-payments/src/token_terminal.rs:241-303 | at every remote call inside an attempt the main account covers the balances of that moment |
| `TerminalThroughout.RecoverTxSolvent` | ic-payments/src/token_terminal.rs:376-492 | the same while a listed transfer is recovered |
| `TerminalThroughout.SolventThroughout` | ic-payments/src/token_terminal.rs:180-385 | the same in any run from any world that satisfies the invariant |
| `TerminalThroughout.AlwaysSolvent` | ic-payments/src/token_terminal.rs:180-385 | from the start of a canister, in any run, the log holds every remote call made, and at each of these moments the main account covers the user balances of that moment |
| `TerminalFresh.AlwaysSolventSeen` | ic-payments/src/token_terminal.rs:180-385 | main result: the same, with hypotheses on what callers see only: no `BadFee` reply, answers in time, no withdrawal to the minting account, and no two withdrawals of one caller and amount at one clock reading |
| `TerminalFresh.SeenRunLegal` | ic-payments/src/transfer.rs:131-228 | under these an interim account is never used twice |
| `TerminalRuns.OldRecoveryRight` | ic-payments/src/token_terminal.rs:473-492 | main result: in every reachable world, if nobody else sent tokens to the interim account, an old first step is refunded exactly if it was never executed and an old second step completes exactly if it was |
| `TerminalRecoverAll.RecoverTxRight` | ic-payments/src/token_terminal.rs:376-492 | in every reachable world: a transfer younger than 24 hours less five minutes, single step or not, is sent again and ends in one of the three ways; an old first step is refunded only if it was not executed and carried on if it was; an old second step is completed only if it was executed and otherwise renewed; tokens of others in the interim account can only cause a payment from those |
| `TerminalCallers.RecoverByAge` | ic-payments/src/token_terminal.rs:376-492 | main result, for every world and reply sequence: a transfer younger than 24 hours less five minutes, single step or not, is sent again and tried three times; an older single step is dropped without a call; an older double step is decided by the reported interim balance |
| `TerminalCallers.SingleDroppedIff` | ic-payments/src/token_terminal.rs:376-471 | a listed single step is dropped if and only if it is at least that old; otherwise its request is the next call |
| `TerminalRecoverAll.ItemsRight` | ic-payments/src/token_terminal.rs:362-374 | the loop handles each item so, and what it puts back for different items is different |
| `TerminalRecoverAll.RecoverAllRight` | ic-payments/src/token_terminal.rs:362-374 | in every reachable world `recover_all` handles each listed transfer exactly once and rightly, foreign ones go back unchanged, and the final list is what was put back |
| `TerminalCallers.RecoverAllReports` | ic-payments/src/token_terminal.rs:362-374 | main result: `recover_all` handles every listed transfer in turn and returns exactly one result for each own one, in order, none for foreign ones: its transaction id and itself, or its error |
| `TerminalCallers.ReportsRight` | ic-payments/src/token_terminal.rs:362-374 | in every reachable world each of these results is a right outcome of its transfer in its turn |
| `TerminalRecoverAll.RecoverAllLosesNothing` | ic-payments/src/token_terminal.rs:362-374 | main result: moreover, if no two listed transfers may clash or time passes with every call, everything put back is on the final list, and so is every transfer reported recoverable other than by a failed balance query, itself or continued |
| `TerminalClashes.LosesNothingIff` | ic-payments/src/recovery_list.rs:89-101 | main result: over all times of the call and all reply sequences, nothing recoverable is lost if and only if no two listed transfers may clash, which can be read off the list and the clock before the call: their continuations would share the hashed fields other than the time, or one would equal the other one created just now |
| `TerminalClashes.ClashLoses` | ic-payments/src/recovery_list.rs:89-101 | for any two that clash, replies exist for which one is reported recoverable and then on no list |
| `TerminalRecoverAll.RecoverAllAccounted` | ic-payments/src/token_terminal.rs:362-374 | from any world and for every reply sequence, `BadFee` replies included: each listed transfer is accounted for as by `RecoverTxAccounted`; the final list is what was put back, re-priced with every later change of the configuration, and just that if no `BadFee` arrives |
| `TerminalRecovery.RecoverTxAccounted` | ic-payments/src/token_terminal.rs:376-492 | for every world and reply sequence, changing fees included: a recovered transfer is settled under a request of its own that is executed and credited; refused in its last request, which is not executed; back on the list (itself, renewed, re-priced or as its second step) with no balance changed; or dropped by a too-old single step, a failed balance query, a failed minting-account query, or a first step whose tokens are stranded |
| `TerminalRecovery.RecoveryAccounted` | ic-payments/src/token_terminal.rs:407-432 | the same for one recovery attempt |
| `TerminalRecovery.TransferAccounted` | ic-payments/src/token_terminal.rs:241-303 | the same for `transfer` itself |
| `TerminalRecovery.RecoverableButDropped` | ic-payments/src/token_terminal.rs:477-477 | a failing balance query reports `Recoverable` although the transfer is on no list |
| `TerminalRecovery.ReportedRecoverable` | ic-payments/src/token_terminal.rs:473-492 | a `Recoverable` report is right if and only if the transfer is not dropped by an old-transfer exit |
| `TerminalFees.TransferRefused` | ic-payments/src/token_terminal.rs:241-303 | so the refund of `transfer` is safe whenever no `BadFee` reply came after a lost one |
| `TerminalFees.RecoveryRefused` | ic-payments/src/token_terminal.rs:407-432 | and the refund of a recovered transfer, if one that may already be executed was not re-priced |
| `TerminalFees.RefundAtRisk` | ic-payments/src/token_terminal.rs:434-457 | without that condition no transfer is safe: for every one the source account can pay, replies exist for which it is executed and nevertheless refused and refunded |
| `TerminalFees.WrongFeeOutcome` | ic-payments/src/token_terminal.rs:434-457 | a transfer at a fee that the ledger does not ask for, if its amount covers the ledger's fee for all its steps and that fee is not the configured one, ends for every reply sequence as its re-priced self in one of the three ways, or listed or given up with nothing executed |
| `TerminalFees.UnderpaidEnd` | ic-payments/src/token_terminal.rs:434-457 | with a smaller amount and a prompt ledger the re-priced request is executed, but a first step's tokens are stranded and a last step delivers nothing |
| `TerminalFees.MinterEnd` | ic-payments/src/token_terminal.rs:440-446 | if the ledger's fee is the configured one, a failing minting-account query ends the transfer neither executed nor listed nor refunded |
| `TerminalFees.WrongFeeSafeIff` | ic-payments/src/token_terminal.rs:434-457 | main result: whether such a transfer ends well for every reply sequence depends on two comparisons the caller can make: it does if and only if its amount exceeds the ledger's fee (single step) or twice that fee (double step), and the ledger's fee is not the configured one |
| `TerminalHoles.FeeChangePaysTwice` | ic-payments/src/token_terminal.rs:434-457 | after a hidden execution a fee change makes one withdrawal pay twice and leaves the balances uncovered |
| `TerminalHoles.FeeChangeRefundsExecuted` | ic-payments/src/token_terminal.rs:434-457 | if the main account cannot pay twice, the executed withdrawal is refunded: tokens stay in the interim account, nothing is listed, the balance is uncovered |
| `TerminalHoles.RepricedIsStranded` | ic-payments/src/token_terminal.rs:434-457 | with every call answered at a fee above the configured one a small withdrawal is accepted, executed in its first step and lost |
| `TerminalHoles.RepricingMergesDeposits` | ic-payments/src/token_terminal.rs:339-344 | two equal deposits of one caller, both listed, are merged by a fee change |
| `TerminalHoles.MinterFailureLoses` | ic-payments/src/token_terminal.rs:440-446 | a withdrawal to the configured minting account is lost when the minting account cannot be read: nothing paid, listed or refunded |
| `TerminalHoles.DepositMisreports` | ic-payments/src/token_terminal.rs:180-203 | a deposit reports 90 and credits 80 |
| `TerminalOvertaking.EqualWithdrawalsOvertake` | ic-payments/src/recovery_list.rs:89-101 | in a legal run without any fee change two equal withdrawals, made at different times and both executed in their first step, are recovered at one clock reading; one is lost, its tokens left in its interim account |
| `TerminalOvertaking.SameInstantWithdrawals` | ic-payments/src/recovery_list.rs:89-101 | two equal withdrawals at one clock reading are both executed in their first step but share interim account and list entry |
| `TokenTerminals.StableRecoveryList.Push` | ic-payments/src/recovery_list.rs:89-101 | stores the transfer under its id, replacing an older one |
| `TokenTerminals.StableRecoveryList.TakeAll` | ic-payments/src/recovery_list.rs:103-109 | returns every stored transfer and empties the list |
| `TokenTerminals.StableRecoveryList.List` | ic-payments/src/recovery_list.rs:111-113 | returns every stored transfer |
| `TokenTerminals.TokenTerminal.UpdateRecoveryFees` | ic-payments/src/token_terminal.rs:339-344 | re-prices and re-times every listed transfer; equals the folded function |
| `TokenTerminals.TokenTerminal.Transfer` | ic-payments/src/token_terminal.rs:242-249 | refines `RunTransfer`, so the outcome, budget and solvency results hold of the object; terminates |
| `TokenTerminals.TokenTerminal.ExecuteTransfer` | ic-payments/src/token_terminal.rs:387-405 | refines `ExecuteTransfer` |
| `TokenTerminals.TokenTerminal.ExecuteRecoveryTransfer` | ic-payments/src/token_terminal.rs:407-432 | refines `ExecuteRecoveryTransfer` |
| `TokenTerminals.TokenTerminal.Complete` | ic-payments/src/token_terminal.rs:252-268 | refines `Complete` |
| `TokenTerminals.TokenTerminal.Reject` | ic-payments/src/token_terminal.rs:270-293 | refines `Reject`: a second step is listed, anything else refunded if agreed |
| `TokenTerminals.TokenTerminal.Retry` | ic-payments/src/token_terminal.rs:296-303 | refines `Retry`: an exhausted budget lists the transfer |
| `TokenTerminals.TokenTerminal.UpdateConfigAndRetry` | ic-payments/src/token_terminal.rs:434-457 | refines `UpdateConfigAndRetry`: fee looked up with the accounts of the current step, no validation |
| `TokenTerminals.TokenTerminal.DepositTokens` | ic-payments/src/token_terminal.rs:180-203 | refines `DepositTokens` |
| `TokenTerminals.TokenTerminal.Withdraw` | ic-payments/src/token_terminal.rs:210-233 | refines `Withdraw`: validated and debited before the first call |
| `TokenTerminals.TokenTerminal.RecoverOldTx` | ic-payments/src/token_terminal.rs:473-492 | refines `RecoverOldTx` |
| `TokenTerminals.TokenTerminal.RecoverTx` | ic-payments/src/token_terminal.rs:376-385 | refines `RecoverTx` |
| `TokenTerminals.TokenTerminal.RecoverItem` | ic-payments/src/token_terminal.rs:364-371 | refines one round of the loop; foreign transfers go straight back |
| `TokenTerminals.TokenTerminal.RecoverAll` | ic-payments/src/token_terminal.rs:362-374 | refines `RecoverAll`: world and results after the whole loop |
| `Scheduling.StepInv` | ic-task-scheduler/src/scheduler.rs:79-347 | every step (append, reschedule, timeout change, run, future starts, returns or dies) keeps: stored tasks carry their key, a key below the sequence and an unfinished status; at most one live future per task; conservation of task ids |
| `Scheduling.SingleFlight` | ic-task-scheduler/src/scheduler.rs:79-222 | main result: in every interleaving, late returns included, no task id has two executions in flight |
| `Scheduling.TaskAccounting` | ic-task-scheduler/src/scheduler.rs:121-218 | main result: every id issued or restored is pending or reported, and reports plus pending equals one plus the number of late retries |
| `Scheduling.RevivedIff` | ic-task-scheduler/src/scheduler.rs:184-204 | a task is brought back after removal if and only if some execution returned late with a retryable failure |
| `Scheduling.ReportedOnceIff` | ic-task-scheduler/src/scheduler.rs:121-218 | pending and reported are disjoint and each id is reported at most once if and only if no late return was retried |
| `Scheduling.NoLateReturnsOnce` | ic-task-scheduler/src/scheduler.rs:121-218 | without late returns each issued id is either pending or reported exactly once |
| `Scheduling.UnwrapFailsIff` | ic-task-scheduler/src/scheduler.rs:177-212 | `remove(..).unwrap()` fails if and only if an execution returns after its task's removal and is not retried; then only its own future is lost |
| `Scheduling.LateRetryBringsBack` | ic-task-scheduler/src/scheduler.rs:121-204 | a run in which a task reported as timed out is pending again |
| `Scheduling.LateSuccessPanics` | ic-task-scheduler/src/scheduler.rs:177-182 | a run that reaches the failing unwrap: a late success kills its future, and the task stays reported as timed out |
| `Scheduling.RunSpec` | ic-task-scheduler/src/scheduler.rs:79-154 | `run(now)` schedules exactly the waiting tasks whose time has come, one future each; removes and reports exactly those scheduled or running for more than the timeout; leaves all others and none of either kind |
| `Scheduling.StartSpec` | ic-task-scheduler/src/scheduler.rs:156-170 | a future executes its task exactly if it is still scheduled, and stamps it with the time of the start |
| `Scheduling.RetryBound` | ic-task-scheduler/src/scheduler.rs:184-211 | a task appended without retries (r = 0) or with `MaxRetries(r)` executes at most r + 1 times in any run that does not reschedule it, and is given up after recoverable failures only when it has executed exactly so often |
| `Scheduling.NeverGivenUp` | ic-task-scheduler/src/retry.rs:47-62 | under `Infinite`, or a `Timeout` that no execution outlasts, a task is never given up after a recoverable failure, in any run that does not reschedule it |
| `Scheduling.ReturnSpec` | ic-task-scheduler/src/scheduler.rs:172-213 | the return of an execution, for every policy: it waits again, with its backoff, if and only if the error is recoverable and the policy then in force allows another attempt; otherwise a stored task is removed and reported once as completed or failed; others are untouched |
| `Scheduling.FinishedForGood` | ic-task-scheduler/src/scheduler.rs:172-218 | main result: success, an unrecoverable error, or a failure without retries left is reported at once, and in no later run is the task executed or reported again |
| `Scheduling.RescheduleSpec` | ic-task-scheduler/src/scheduler.rs:268-274 | rescheduling replaces the options of a stored task only, and a running execution counts as the first of the new schedule |
| `Scheduling.TimeoutInForce` | ic-task-scheduler/src/scheduler.rs:59-64 | the running-task timeout last set stays in force in every run |
| `Scheduling.PayloadKept` | ic-task-scheduler/src/scheduler.rs:79-347 | in every run what is stored, executed or reported under a task id is the task appended under it |
| `Scheduling.WaitsUntilDue` | ic-task-scheduler/src/scheduler.rs:92-98 | whatever else happens, a waiting task is not launched, changed or removed before its execute-after time |
| `Scheduling.BackoffRespected` | ic-task-scheduler/src/scheduler.rs:198-204 | after a retried failure the task is not executed again before the start of the failed execution plus the backoff delay |
| `Schedulers.Scheduler.AppendTask` | ic-task-scheduler/src/scheduler.rs:307-322 | stores the task waiting under a fresh key; refines the append step |
| `Schedulers.Scheduler.AppendTasks` | ic-task-scheduler/src/scheduler.rs:324-333 | stores all tasks under consecutive fresh keys in order and touches no other |
| `Schedulers.Scheduler.GetTask` | ic-task-scheduler/src/scheduler.rs:335-337 | a task that is found is unfinished and carries its key; an issued one that is not found has been reported |
| `Schedulers.Scheduler.FindId` | ic-task-scheduler/src/scheduler.rs:349-359 | the smallest key whose task satisfies the filter, or none exists |
| `Schedulers.Scheduler.Collect` | ic-task-scheduler/src/scheduler.rs:89-114 | exactly the due keys and exactly the over-age keys |
| `Schedulers.Scheduler.ProcessPendingTask` | ic-task-scheduler/src/scheduler.rs:137-156 | marks a waiting task scheduled and spawns one future |
| `Schedulers.Scheduler.ScheduleDue` | ic-task-scheduler/src/scheduler.rs:116-119 | the loop over the due keys marks all of them and spawns one future each |
| `Schedulers.Scheduler.RemoveOverAge` | ic-task-scheduler/src/scheduler.rs:121-132 | the loop over the over-age keys removes and reports each once |
| `Schedulers.Scheduler.RunWithTimestamp` | ic-task-scheduler/src/scheduler.rs:79-135 | refines the run step and returns the number of due tasks |
| `Schedulers.Scheduler.StartFuture` | ic-task-scheduler/src/scheduler.rs:156-176 | refines the start step: only a task still scheduled is executed |
| `Schedulers.Scheduler.FinishFuture` | ic-task-scheduler/src/scheduler.rs:172-213 | refines the return step; tells exactly when an unwrap fails |
| `Retry.Delays` | ic-task-scheduler/src/retry.rs:89-111 | the delay after the f-th failure for every policy; the doubly saturating exponential one is min(2^32 - 1, secs * multiplier^(f - 1)) |
| `Retry.ExponentialMonotoneIff` | ic-task-scheduler/src/retry.rs:89-111 | exponential delays never shrink if and only if the multiplier is positive or the period zero |
| `RingBuffers.PushesKeepLast` | ic-stable-structures/src/structure/common/ring_buffer.rs:213-236 | any number of pushes keeps exactly the most recent `capacity` elements of the whole history |
| `RingBuffers.Pushed` | ic-stable-structures/src/structure/common/ring_buffer.rs:213-236 | writing the wrapped slot turns the contents into the last `capacity` of the old ones and the new one, and in a full buffer hits exactly the oldest |
| `RingBuffers.StepSpec` | ic-stable-structures/src/structure/common/ring_buffer.rs:180-253 | what each operation of the reference deque does to the elements: push evicts the oldest, pop takes the newest, truncation drops the newest, resizing the oldest |
| `RingBuffers.StableRingBuffer.NthElement` | ic-stable-structures/src/structure/common/ring_buffer.rs:266-269 | the n-th element of the sequence, or none; the index is inside the vector |
| `RingBuffers.StableRingBuffer.NthElementFromEnd` | ic-stable-structures/src/structure/common/ring_buffer.rs:272-275 | the n-th element from the end, or none |
| `RingBuffers.StableRingBuffer.DoPush` | ic-stable-structures/src/structure/common/ring_buffer.rs:213-236 | refines the deque push and returns exactly the evicted oldest element |
| `RingBuffers.StableRingBuffer.DoPop` | ic-stable-structures/src/structure/common/ring_buffer.rs:239-246 | refines the deque pop |
| `RingBuffers.StableRingBuffer.DoTruncate` | ic-stable-structures/src/structure/common/ring_buffer.rs:249-253 | drops the last n elements, all if there are fewer |
| `RingBuffers.StableRingBuffer.DoResize` | ic-stable-structures/src/structure/common/ring_buffer.rs:180-208 | keeps the last min(len, new capacity) elements in order and restores the index invariant |
| `RingBuffers.StableRingBuffer.Replay` | ic-stable-structures/src/structure/common/ring_buffer.rs:125-275 | any history of operations refines the deque run, contents and results |
| `LogWriter.PagingCorrectIff` | ic-log/src/writer.rs:92-134 | main result: every page agrees with the full history if and only if the buffer is empty or holds min(printed, capacity) records |
| `LogWriter.PageAgrees` | ic-log/src/writer.rs:92-134 | then a page is the retained records from the first offset not below the wanted one, at most `max`, with true absolute offsets |
| `LogWriter.InMemoryWriter.InitBuffer` | ic-log/src/writer.rs:79-90 | empty, correctly filled, disabled for capacity zero |
| `LogWriter.InMemoryWriter.Print` | ic-log/src/writer.rs:168-185 | appends the record, cut to the byte limit and then decoded, evicting the oldest; keeps a correctly filled buffer so |
| `LogWriter.InMemoryWriter.TakeRecords` | ic-log/src/writer.rs:92-134 | the page, with the count of all records; tells exactly when the offset subtraction underflows, which a correctly filled buffer excludes |
| `LogWriter.InMemoryWriter.ReadFrom` | ic-log/src/writer.rs:117-126 | the loop numbers at most `max` records upwards from the given offset |
| `LogWriter.InMemoryWriter.Copy` | ic-log/src/writer.rs:148-156 | a correctly filled buffer hands over its newest records |
| `LogWriter.InMemoryWriter.ChangeCapacity` | ic-log/src/writer.rs:148-165 | keeps the newest records that fit; the buffer stays correctly filled if and only if it shrinks or nothing was evicted |
| `CachedMaps.SyncLruCache.Insert` | ic-stable-structures/src/structure/cache/lru.rs:73-75 | afterwards the cache holds only old entries and the new one, whatever it evicts |
| `CachedMaps.PlainSpec` | ic-stable-structures/src/structure/cache/btreemap.rs:49-81 | what each operation of the reference map answers and changes, key by key |
| `CachedMaps.CachedStableBTreeMap.Lookup` | ic-stable-structures/src/structure/cache/btreemap.rs:49-52 | answers as the stored map and keeps the cache coherent |
| `CachedMaps.CachedStableBTreeMap.ContainsKey` | ic-stable-structures/src/structure/cache/btreemap.rs:70-72 | true exactly for stored keys |
| `CachedMaps.CachedStableBTreeMap.IsEmpty` | ic-stable-structures/src/structure/cache/btreemap.rs:74-76 | true exactly for an empty stored map |
| `CachedMaps.CachedStableBTreeMap.Replay` | ic-stable-structures/src/structure/cache/btreemap.rs:49-81 | main result: in every run, for every capacity and eviction, each answer is the plain map's |
| `Multimaps.PartialRange` | ic-stable-structures/src/structure/stable_storage/multimap.rs:63-102 | the bounded range holds exactly the pairs with the given first key |
| `Multimaps.FirstAndLast` | ic-stable-structures/src/structure/stable_storage/multimap.rs:77-83 | the first pair has the smallest first key and under it the smallest second key, the last one the largest |
| `Multimaps.StableMultimap.RemovePartial` | ic-stable-structures/src/structure/stable_storage/multimap.rs:63-75 | removes every pair with that first key and no other; true exactly if there was one |
| `Multimaps.StableMultimap.RangeKeys` | ic-stable-structures/src/structure/stable_storage/multimap.rs:97-102 | the stored keys within two bounds: the one ascending listing of them |
| `Multimaps.StableMultimap.Range` | ic-stable-structures/src/structure/stable_storage/multimap.rs:97-102 | exactly the values under one first key, in order of the second |
| `Multimaps.StableMultimap.PopFirst` | ic-stable-structures/src/structure/stable_storage/multimap.rs:77-79 | removes and returns the lexicographically smallest pair |
| `Multimaps.StableMultimap.PopLast` | ic-stable-structures/src/structure/stable_storage/multimap.rs:81-83 | removes and returns the largest |
| `Multimaps.CachedStableMultimap.Lookup` | ic-stable-structures/src/structure/cache/multimap.rs:62-67 | answers as the uncached multimap, keeps the cache coherent |
| `Multimaps.CachedStableMultimap.Insert` | ic-stable-structures/src/structure/cache/multimap.rs:71-75 | as the uncached one, cache coherent |
| `Multimaps.CachedStableMultimap.Remove` | ic-stable-structures/src/structure/cache/multimap.rs:77-81 | as the uncached one, cache coherent |
| `Multimaps.CachedStableMultimap.RemovePartial` | ic-stable-structures/src/structure/cache/multimap.rs:83-87 | as the uncached one; no removed pair stays cached |
| `Multimaps.CachedStableMultimap.PopFirst` | ic-stable-structures/src/structure/cache/multimap.rs:89-93 | as the uncached one; the popped pair leaves the cache |
| `Multimaps.CachedStableMultimap.PopLast` | ic-stable-structures/src/structure/cache/multimap.rs:95-99 | as the uncached one; the popped pair leaves the cache |
| `Multimaps.CachedStableMultimap.IsEmpty` | ic-stable-structures/src/structure/cache/multimap.rs:105-107 | true exactly for an empty stored map |
| `StableStorage.StableMemory.Grow` | ic-storage/src/testing.rs:52-65 | grows by whole zeroed pages, or refuses exactly when the 32-bit byte count reaches the limit; the shift may wrap |
| `StableStorage.StableWriter.Write` | ic-storage/src/testing.rs:102-110 | a write of less than 4 GiB minus a page stays within the grown memory and appends to the output; a failing one changes nothing |
| `StableStorage.StableWriter.WriteAll` | ic-storage/src/testing.rs:92-110 | for every split into chunks a successful run leaves their concatenation at the start of memory |
| `VersionedStorage.TerminatesIff` | ic-storage/src/stable.rs:237-246 | the recursion terminates if and only if the stored version is one of the chain |
| `VersionedStorage.UpgradeFrom` | ic-storage/src/stable.rs:237-246 | from type k the recursion yields the composed upgrades k + 1 to n of the written value |
| `VersionedStorage.ReadWritten` | ic-storage/src/stable.rs:187-196 | main result: reading type n where type k was written gives the value upgraded type by type along a path from k to n if k <= n, and a refused downgrade otherwise |
| `VersionedStorage.GapDiverges` | ic-storage/src/stable.rs:237-246 | a stored version that no type has recurses for ever |
| `VersionedStorage.ReadNothing` | ic-storage/src/stable.rs:173-196 | less than a page holds no version, and a value that does not decode stays undecodable through all upgrades |
| `VersionedStorage.Write` | ic-storage/src/stable.rs:201-231 | refused exactly if something newer is stored; success leaves version and serialisation at the start of memory; a failing write never lowers the stored version |
| `VersionedStorage.WriteRun` | ic-storage/src/stable.rs:201-231 | over any run of writes, failing ones included, the stored version never decreases |
| `Metrics.MetricsMap.Trim` | ic-metrics/src/lib.rs:218-222 | keeps exactly the snapshots within the history length |
| `Metrics.MetricsMap.Newest` | ic-metrics/src/lib.rs:204-209 | the largest key, or the current time for an empty map |
| `Metrics.MetricsMap.Insert` | ic-metrics/src/lib.rs:201-216 | overwrites exactly a newest snapshot less than an interval old, and otherwise starts the interval that the time is in; keeps the others in the window; at most history / interval + 2 entries; all keys but the smallest are multiples of the interval |
| `Metrics.Intervals` | ic-metrics/src/lib.rs:165-174 | the lengths of all intervals |
| `Metrics.HistoryBound` | ic-metrics/src/lib.rs:201-222 | a window holds at most history / interval + 2 aligned keys |
| `Tokens.ToTokens128` | ic-helpers/src/tokens.rs:247-263 | a value exactly when it fits 128 bits, and then the same value |
| `Tokens.SumBytes` | ic-helpers/src/tokens.rs:258-260 | the loop adds up the little-endian value |
| `Tokens.FitsIff` | ic-helpers/src/tokens.rs:251-256 | a value fits n bytes if and only if all further bytes are zero |
| `Tokens.FromToNat` | ic-helpers/src/tokens.rs:309-317 | `from_nat` accepts exactly the values that fit and gives their bytes, which `to_nat` reads back |
| `Tokens.BytesValue` | ic-helpers/src/tokens.rs:293-317 | bytes and value round trip: value of the bytes of a number |
| `Tokens.ProductExact` | ic-helpers/src/tokens.rs:142-144 | the product of two 128-bit amounts never saturates; one beyond 256 bits becomes the largest value |

## Left out

- Runs in which `BadFee` replies arrive: whole-run solvency is not stated for them, because it is then false (`TerminalHoles.FeeChangePaysTwice`, `TerminalHoles.FeeChangeRefundsExecuted`); single operations are covered by `RecoverTxAccounted`, `TransferAccounted` and `TerminalFees`.
- Interleaved terminal operations: each method holds the terminal exclusively across its awaits, so operations follow one another.
- Several ledgers: foreign transfers are passed over by recovery, but only the configured token's ledger is modelled.
- SHA-224: the identifier is an injective function of exactly the hashed fields.
- Balances storage: `credit` succeeds; amounts are unbounded, as `Nat` is.
- `deposit_all` and the configuration callback: one query before `deposit`, and a notification.
- Error texts: only the classes of errors are kept.
- Scheduler task bodies, and the order of callbacks of different tasks within one run.
- Machine-integer overflow of task ids, timestamps, failure counters, ring-buffer indices and interval lengths.
- Scheduler timeout copies: each future carries its own copy of the timeout, which it does not use; the model has one.
- Stable B-tree, vector and cell internals and the LRU order: maps, sequences and arbitrary eviction stand for them.
- Iterators, `len` and first/last queries that bypass the caches.
- Second keys of the multimap are 64-bit numbers and first keys integers, standing for any bounded ordered types.
- The byte encoding of ring-buffer indices, and the candid codec, of which a round trip is assumed as a parameter (`RoundTrips`).
- The version is stored in native byte order; it is modelled as little-endian, which is WebAssembly's.
- The lossy UTF-8 decoding of a log record is a parameter.
- A metrics interval of zero, on which the code divides by zero.
- Token conversions through floating point, and square roots.
- The log's console writer, filters and access control; the auction, macros, mocks and network clients.
