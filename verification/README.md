# Redis core, verified

A Dafny model of six parts of Redis 3.2.6 (the `redis/src` tree) and proofs of what they promise:

- **Cluster control plane** (`cluster.c`): `ClusterNode` says how packets, timers and commands
  change the configuration of one node; `ClusterState` is the same state updated in place, with
  its slot array, node bitmaps and counters, and every handler is proved to do what `ClusterNode`
  says. `ClusterFacts` and `CommandFacts` say what `ClusterNode` does field by field and slot by slot, without its
  own helpers. `ClusterBus` connects nodes by a bus that delays, loses and reorders packets; `Election`,
  `DoubleWin`, `Ballots`, `SlotClaims`, `Collision` and `DelayedPings` prove what holds over whole runs.
  `Redirection` and `Resharding` cover hash tags, `getNodeByQuery` and the live migration of a slot.
- **Hash table** (`dict.c`): `DictModel` and `Dictionary` (two tables as one map), `Scan`,
  `ScanCursor`, `ReverseLoop` (the stateless cursor), `SafeIterator`.
- **Append-only file** (`aof.c`): `AofCodec` (printer and loader), `AofReplay` (what a log means),
  `AofExpire` and `AofDeadlines` (times to live), `AofFlush`, `AofBuffer`, `AofRewrite`, `AofSnapshot` and `AofSteps`
  (the background rewrite).
- **Keyspace** (`db.c`): `Keyspace`.
- **Integer sets** (`intset.c`): `Intset`.
- **Bit operations** (`bitops.c`): `Popcount`, `Bitpos`, `Bitfield`, `Bitop`, over `BitString`.

`Words` and `Memory` hold machine words and bytes, `Wrappers` an option type.

`dafny verify dfyconfig.toml` checks the whole project.

## Results in short

Several properties that one would expect do not hold of the code, and each is stated with its exact condition.

- One winner per epoch. A vote that arrives after an election was given up and before the next one
  starts is counted into the next one (the tally is reset at `cluster.c:2777`, the epoch changes
  at `cluster.c:2838`). `DoubleWin.TwoWinners` is a run with two winners of one epoch;
  `Election.TallyExact` and `Election.NextFresh` say exactly when a tally is the number of votes;
  `Election.ElectionSafety` proves safety under that condition and agreed masters.
- Scan coverage. While a table shrinks by a factor of four or more, one call may skip entries
  (`Scan.ScanMissesAfterShrink`). `Scan.BlockCoveredExactly` gives the condition on the cursor, and
  `Scan.ScanCoverage` proves coverage under it. It holds whenever the two sizes differ by a factor
  of two or the cursor has no bit between the two masks.
- A node that starts to follow another master is asserted to serve no slot (`cluster.c:3640`). A
  replica that was given slots with ADDSLOTS violates this when a slot claim makes it follow
  the claimant (`ClusterState.LadenReplica`, `ClusterState.FollowsUnladen`), when CLUSTER
  REPLICATE does (`ClusterState.LadenReplicate`, `ClusterState.ReplicatesUnladen`), and when it
  migrates to an orphaned master (`ClusterState.LadenMigrates`, `ClusterState.MigratesUnladen`).
- The log gives keys the deadlines they had, and a rewrite leaves its meaning alone. SET with EX or PX is
  logged as it is, so its deadline is counted again from the time of the load (`AofExpire.SetIsLate`),
  and a rewrite, which writes the deadline itself, changes what the log means (`AofSnapshot.LogsDiffer`).
  EXPIRE, PEXPIRE, SETEX and PSETEX are made absolute from a second reading of the clock (`aof.c:498`), so
  their deadline is later by the time in between (`AofExpire.LateLogging`). SET XX of a key that expires
  while the command runs is logged behind a deletion that makes it void (`AofExpire.SetXxSlips`).
  `AofExpire.TranslationKeeps` is the exact condition for one command; under it for every command,
  `AofRewrite.LogReplays`, `AofRewrite.RewritePreserves` and `AofSnapshot.DeadlinesSurvive` hold of every run.
- A rewrite drops only keys that have expired. A deadline that overflows to a negative number counts as
  none for lookups and as passed for the child (`AofSnapshot.OverflowSkipped`); `AofSnapshot.ForkKept` says
  that this is the only case.
- Every node ends with the slots' greatest claimants. An UPDATE packet is ignored when the epoch of its subject is
  known, even if that came with a packet that carries no claim (`SlotClaims.UpdateTooLate`);
  `SlotClaims.ConfluenceExactly` is the condition on the packets delivered.
- A flush does not put off a write that has waited for two seconds (`AofFlush.WriteIsDue`), provided that the clock
  does not read zero (`AofFlush.ZeroClock`).
- The answer to a query of several keys does not depend on their order, unless one of them lies in
  an unassigned slot and another does not (`Redirection.OrderMatters`, `Redirection.TwoOrders`).

Where code and comments disagree the model follows the code: `clusterDelNodeSlots` returns 16384
whatever it deleted, and the BITFIELD overflow checks report a wrapped underflow as 1.

## How the model reads the source

- Clocks, random delays, results of `write` and `ftruncate`, connected links, failure flags and
  "two node timeouts since the last vote" are inputs of the steps that consult them.
- Node names, keys and hash values are compared only for order and equality, so they are numbers;
  hash functions and the CRC are arbitrary functions.
- Numbers are unbounded except where width matters: cursors, words, bit fields, integer sets, deadlines and
  32-bit popcount arithmetic are modelled at their width.
- A run is a sequence of states in which each follows from the one before by one step; the invariant
  that makes a step well defined is proved of every state of every run.

## Model

| member | source | states |
|---|---|---|
| `Election.NextHonest` | redis/src/cluster.c:1541-1980 | every step of the bus (delivery, loss, sending, failover attempt, administrator command) keeps the epoch bound and the bookkeeping of votes: one vote per voter and epoch, no vote acknowledged twice, every open tally explained |
| `Election.RunHonest` | redis/src/cluster.c:1541-1980 | the same for every world of every run, by induction |
| `Election.EpochsInRun` | redis/src/cluster.c:1600-1612 | epoch bound: in every reachable world no node knows a configEpoch above its currentEpoch, and no packet in flight carries one above its own currentEpoch |
| `Election.BumpIsFresh` | redis/src/cluster.c:926-987 | in every reachable world a bumped configEpoch is strictly above every epoch known locally, and a bump is refused exactly when the node already holds its currentEpoch |
| `Election.WinsShareNoVoter` | redis/src/cluster.c:2466-2566 | in every run, two nodes that win the same epoch have disjoint sets of counted voters |
| `Election.ElectionSafety` | redis/src/cluster.c:2773-2865 | in every run, one node wins an epoch if, in the worlds before, every node with an open election of that epoch knows no serving master outside one set and no smaller cluster size than that set, and no winning tally of the epoch was carried in |
| `Election.TallyExact` | redis/src/cluster.c:1928-1940 | the tally of an open election equals the number of counted voters, each of which voted for it in its epoch, if and only if it started at zero |
| `Election.NextFresh` | redis/src/cluster.c:2773-2865 | a step keeps every tally starting at zero if and only if it does not count a vote while no election is open |
| `Election.ElectionSafetyInRun` | redis/src/cluster.c:2773-2865 | the same with conditions on the steps alone: the masters agreed, and no vote counted between elections |
| `Election.WinsAgree` | redis/src/cluster.c:2466-2566 | two wins of one epoch over one set of masters, both counted from zero, are by the same node |
| `Election.RunAmong` | redis/src/cluster.c:1928-1940 | while open elections of an epoch see only the agreed masters, every vote counted and every win recorded for the epoch is by them |
| `DoubleWin.TwoWinners` | redis/src/cluster.c:1928-1940 | a run of twelve steps, with the masters agreed throughout, in which both replicas of the only master win epoch 2: the code alone does not give one winner per epoch |
| `ClusterBus.OnPingOk` | redis/src/cluster.c:1760-1880 | processing a PING keeps the epoch bound and the node links, and leaves votes and elections alone |
| `ClusterBus.OnUpdateOk` | redis/src/cluster.c:1953-1974 | the same for an UPDATE |
| `ClusterBus.ApplyOk` | redis/src/cluster.c:3926-4065 | the same for every modelled CLUSTER command |
| `ClusterBus.OnRequestOk` | redis/src/cluster.c:2466-2566 | a vote is granted only at the epoch of the request, which is then the voter's currentEpoch and above its previous vote |
| `ClusterBus.OnAckOk` | redis/src/cluster.c:1928-1940 | an acknowledgement changes nothing of the election but its tally, by one or by zero |
| `ClusterBus.HandleFailoverOk` | redis/src/cluster.c:2704-2865 | the four outcomes of a failover attempt and exactly what each does to the election; a win needs a quorum |
| `ClusterFacts.VoteExactly` | redis/src/cluster.c:2466-2566 | a vote is granted if and only if this node is a master with a slot, the request has at least its epoch and one it has not voted in, the sender is a known replica whose master is held to have failed or the request is forced, it did not vote for that master too recently, and no claimed slot has an owner with a greater epoch; then the vote is at the epoch of the request, and nothing else changes |
| `ClusterFacts.AckExactly` | redis/src/cluster.c:1928-1940 | an acknowledgement is counted if and only if its sender is a known master with a slot and its epoch is not behind the election |
| `ClusterFacts.TakesOver` | redis/src/cluster.c:2666-2695 | after a promotion a slot is this node's exactly when it was its own or its old master's, every other slot keeps its owner, the old master has none, and the size is the number of serving masters unless the node has just started |
| `ClusterFacts.FailoverExactly` | redis/src/cluster.c:2704-2865 | each outcome of a failover attempt if and only if its condition on role, failure, age of the data, timing, rank and majority holds, and its whole effect |
| `ClusterFacts.WinExactly` | redis/src/cluster.c:2849-2865 | a won election leaves the node a master under the greater of its epoch and that of the election, with every slot of its old master, of which there is one |
| `ClusterFacts.ClaimExactly` | redis/src/cluster.c:1442-1525 | a claim takes exactly the claimed slots that are not imported and are free or have an owner with a smaller epoch; this node follows the claimant exactly when that took a slot of its master, or of itself, and left that one none |
| `ClusterFacts.UpdateExactly` | redis/src/cluster.c:1953-1974 | an UPDATE from a known sender about a known node with a newer epoch makes it a master with exactly that epoch and applies its claim slot by slot; any other changes nothing beyond its header |
| `ClusterFacts.ReplicaPing` | redis/src/cluster.c:1760-1799 | a ping of a replica: its role, its master if known, and the loss of its slots if it was a master; nothing else changes |
| `ClusterFacts.MasterPing` | redis/src/cluster.c:1760-1880 | a ping of a master, whatever it claims, in every state within the epoch bound: its role, its claim slot by slot, and a new epoch for this node exactly when both are masters with one epoch and this name is the smaller |
| `CommandFacts.Given` | redis/src/cluster.c:4018-4065 | SETSLOT NODE: exactly when it is refused, the one slot that changes hands, which openings it closes, and that the closing node ends with an epoch not below its current one |
| `CommandFacts.Forgotten` | redis/src/cluster.c:4177-4195 | FORGET removes the node with its slots, openings and links, except this node and its master |
| `CommandFacts.Replicates` | redis/src/cluster.c:4196-4230 | REPLICATE: exactly when it is refused, and otherwise its whole effect |
| `CommandFacts.Added` | redis/src/cluster.c:3926-3975 | ADDSLOTS gives this node all the slots if each is free, and otherwise none |
| `CommandFacts.Deleted` | redis/src/cluster.c:3926-3975 | DELSLOTS frees all the slots if each has an owner, and otherwise none |
| `CommandFacts.Openings` | redis/src/cluster.c:3976-4017 | SETSLOT MIGRATING, IMPORTING and STABLE: when each is refused and what it opens or closes |
| `CommandFacts.EpochSet` | redis/src/cluster.c:4322-4350 | SET-CONFIG-EPOCH works exactly on a node without an epoch that knows no other |
| `CommandFacts.SpeaksFor` | redis/src/cluster.c:2116-2170 | the packets of a replica carry the slots and the epoch of its master |
| `Ballots.NextVotes` | redis/src/cluster.c:2466-2566 | a step of the bus records a vote if and only if it delivers a request for which the conditions of a vote hold |
| `Ballots.NextRequests` | redis/src/cluster.c:2835-2847 | a step puts a request for votes on the bus only if it starts an election of its sender, at the next epoch |
| `Ballots.VotesCast` | redis/src/cluster.c:2466-2566 | in every run, the votes recorded are exactly those cast by a delivery of the run to a serving master entitled to cast it, for a replica whose master it then held to have failed, or under force |
| `Ballots.EveryVote` | redis/src/cluster.c:2466-2566 | in every run, behind every vote is an election that its candidate started at that epoch, for a failed master or by hand, before the vote was cast |
| `Ballots.WinnersServe` | redis/src/cluster.c:2849-2865 | in every run, every recorded win was by a majority of the size counted, and left the winner a master of at least that epoch with every slot of its old master, which had one and then has none |
| `SlotClaims.PingEffect` | redis/src/cluster.c:1442-1502 | effect of one ping of a master with another epoch on the slot table and on the known epochs, slot by slot |
| `SlotClaims.PingFollows` | redis/src/cluster.c:1814-1826 | hearing one more claim from the claimant, new or repeated, keeps each slot with the greatest claimant heard so far |
| `SlotClaims.UpdateEffect` | redis/src/cluster.c:1953-1974 | effect of one UPDATE that tells news on the slot table and on the known epochs, slot by slot |
| `SlotClaims.UpdateFollows` | redis/src/cluster.c:1953-1974 | hearing one more claim in an UPDATE keeps each slot with the greatest claimant heard so far, the reported one included exactly when its epoch was not known |
| `SlotClaims.DeliverFollows` | redis/src/cluster.c:1541-1980 | after any sequence of pings, UPDATE packets and packets without claim the node follows exactly the claims they tell: by a ping of the claimant, or an UPDATE before any packet of the claimant |
| `SlotClaims.Confluence` | redis/src/cluster.c:1442-1502 | any delivery of pings, UPDATE packets and others, in any order with any repetition, that tells every claim ends with each slot bound to its claimant of greatest epoch and no other slot bound |
| `SlotClaims.ConfluenceExactly` | redis/src/cluster.c:1953-1974 | this end is reached if and only if every slot claimed by a master whose claim is not told has a greater claimant whose claim is |
| `SlotClaims.PassesOn` | redis/src/cluster.c:2388-2401 | a master that follows claims on disjoint slots passes on nothing else: its pings state its own claim, and its UPDATE packets those it has heard |
| `SlotClaims.UpdateTooLate` | redis/src/cluster.c:1958-1961 | an UPDATE about a master that has already shown its epoch in a packet without claim is lost, and its slot stays without owner |
| `SlotClaims.SameTable` | redis/src/cluster.c:1607-1612 | two nodes that are told the same claims by different packets in different orders end with the same slot table |
| `Collision.PingMoves` | redis/src/cluster.c:1872-1879 | a ping, however old, between masters with disjoint slots changes the receiver's own configEpoch exactly when it carries that epoch, no later one of the sender is known and its name is the smaller, to one above both currentEpochs, and demotes nobody |
| `Collision.MeetResolves` | redis/src/cluster.c:1035-1050 | any ping between masters keeps them masters and changes an epoch exactly when the receiver moves; a receiver that has caught up moves above every epoch, so the colliding pairs become fewer |
| `Collision.CollisionsEnd` | redis/src/cluster.c:1011-1034 | in every run of pings between masters, whichever pings they are, in which a receiver has caught up when it moves, moves plus remaining colliding pairs never exceed the pairs at the start |
| `Collision.CollisionsCanEnd` | redis/src/cluster.c:1011-1034 | from every configuration of masters, new clusters at epoch zero included, some such run ends with no two masters on one epoch |
| `Collision.GreatestStays` | redis/src/cluster.c:1030-1034 | in every world of every such run the master whose name was the greatest of its epoch at the start still has that epoch, and still the greatest name in it |
| `DelayedPings.DelayedCollisionsEnd` | redis/src/cluster.c:1011-1034 | the same bound on moves when pings are delayed, lost, repeated and overtaken |
| `DelayedPings.DelayedGreatestStays` | redis/src/cluster.c:1030-1034 | and the greatest name still never moves |
| `DelayedPings.AtOnce` | redis/src/cluster.c:1872-1879 | a ping processed as it is sent is one case of these runs |
| `ClusterState.State.constructor` | redis/src/cluster.c:398-478 | a new node knows itself, serves nothing, and its structures agree |
| `ClusterState.State.AddSlot` | redis/src/cluster.c:3418-3423 | fails exactly when the slot is taken; array, bitmaps and counters stay in agreement |
| `ClusterState.State.DelSlot` | redis/src/cluster.c:3428-3435 | fails exactly when the slot is unassigned; the assertion that the owner's bit is set never fails |
| `ClusterState.State.DelNodeSlots` | redis/src/cluster.c:3439-3447 | unassigns exactly the slots of the node; returns 16384 whatever it deleted, against its comment |
| `ClusterState.State.Rebind` | redis/src/cluster.c:1465-1502 | the loop rebinds exactly the slots whose claim is newer and that are not being imported; it says whether the current master lost one and which slots this node lost while holding keys |
| `ClusterState.State.UpdateSlots` | redis/src/cluster.c:1442-1525 | whole handler: rebound table, the node follows the claimant when its master lost its last slot, and otherwise the keys of exactly the lost slots are deleted, so that a node holds keys only of slots it serves |
| `ClusterState.State.SetMaster` | redis/src/cluster.c:3638-3655 | role change, closing open slots of a master; reports whether the assertion on its slots holds |
| `ClusterState.FollowsUnladen` | redis/src/cluster.c:1505-1514 | when a claim makes a node follow another master, the assertion that it serves no slot holds if and only if it is a master or the claim takes all its own slots |
| `ClusterState.State.Replicate` | redis/src/cluster.c:4196-4230 | CLUSTER REPLICATE with all its refusals, and whether the assertion of the role change holds |
| `ClusterState.ReplicatesUnladen` | redis/src/cluster.c:4196-4230 | when CLUSTER REPLICATE is accepted, that assertion holds if and only if the node is a master or serves no slot |
| `ClusterState.LadenReplicate` | redis/src/cluster.c:4218-4230 | a replica given a slot by ADDSLOTS whose REPLICATE is accepted and fails the assertion |
| `ClusterState.MigratesUnladen` | redis/src/cluster.c:2969-2979 | a replica that migrates to an orphaned master meets the assertion if and only if it serves no slot |
| `ClusterState.LadenMigrates` | redis/src/cluster.c:2969-2979 | a replica given a slot by ADDSLOTS that migrates and fails the assertion |
| `ClusterState.LadenReplica` | redis/src/cluster.c:3638-3640 | a replica given a slot by ADDSLOTS for which that assertion fails |
| `ClusterState.State.TakeSlots` | redis/src/cluster.c:2676-2682 | the failover loop hands exactly the old master's slots to this node |
| `ClusterState.State.ReplaceMaster` | redis/src/cluster.c:2666-2695 | promotion of a replica, in place: its own slots are then its own and those of its old master, every other slot keeps its owner, and the size is counted anew unless the node has just started |
| `ClusterState.State.Unassign` | redis/src/cluster.c:868-876 | slots, migrations and imports of a deleted node are removed and no others |
| `ClusterState.State.DelNode` | redis/src/cluster.c:863-890 | node removal keeps every pointer inside the node table |
| `ClusterState.State.CheckSlots` | redis/src/cluster.c:3932-3958 | accepts the arguments exactly when all are slots in the right state and none is repeated |
| `ClusterState.State.ChangeSlots` | redis/src/cluster.c:3959-3972 | the assertion that each slot operation succeeds never fails |
| `ClusterState.State.AddDelSlots` | redis/src/cluster.c:3926-3975 | all of the slots or none, with the exact condition, and what each slot then is |
| `ClusterState.State.GetMaxEpoch` | redis/src/cluster.c:926-939 | the greatest epoch known |
| `ClusterState.State.BumpEpoch` | redis/src/cluster.c:970-987 | a new epoch exactly when the node has none or not the greatest |
| `ClusterState.State.SetSlotNode` | redis/src/cluster.c:4018-4065 | SETSLOT NODE with its refusals, closing of migrations and imports, and the epoch bump |
| `ClusterState.State.SeeHeader` | redis/src/cluster.c:1598-1612 | both epochs are raised to those of a known sender |
| `ClusterState.State.SeeRole` | redis/src/cluster.c:1767-1799 | a master turned replica loses its slots; a replica changes its master only to a known one |
| `ClusterState.State.FindStale` | redis/src/cluster.c:1838-1868 | finds the owner of the first claimed slot whose owner has an epoch above the sender's, and none exactly if there is no such slot |
| `ClusterState.State.SeeClaim` | redis/src/cluster.c:1814-1868 | slot claim of a ping: matches the specification of one node, deletes the keys of exactly the lost slots, and answers if and only if the claim differs from what is known and some claimed slot then has a newer owner |
| `ClusterState.State.FixCollision` | redis/src/cluster.c:1035-1050 | the handler matches the specification of one node |
| `ClusterState.State.OnPing` | redis/src/cluster.c:1760-1880 | whole PING handler: equals the specification used by the bus, keeps the slot structures in agreement, deletes the keys of exactly the lost slots, and sends an UPDATE back if and only if a known sender's claim is stale |
| `ClusterState.State.OnUpdate` | redis/src/cluster.c:1953-1974 | whole UPDATE handler, in place: no news, no change beyond the header; news makes the subject a master of exactly that epoch and applies its claim slot by slot; the keys of exactly the lost slots are deleted |
| `ClusterState.State.ClaimsAreRecent` | redis/src/cluster.c:2538-2558 | the loop accepts exactly when no claimed slot has an owner with a greater epoch |
| `ClusterState.State.Grants` | redis/src/cluster.c:2466-2560 | the tests in their order accept exactly the requests that the specification of one node grants |
| `ClusterState.State.OnRequest` | redis/src/cluster.c:2466-2566 | whole vote handler, in place: grants if and only if the conditions of a vote hold of the state and the header before it, and records the epoch of the request |
| `ClusterState.State.OnAck` | redis/src/cluster.c:1928-1940 | a vote counts exactly when it comes from a master serving slots at the election's epoch or later |
| `ClusterState.State.Proceed` | redis/src/cluster.c:2808-2865 | the end of a failover attempt, from the delay of a lower rank to the win |
| `ClusterState.State.HandleFailover` | redis/src/cluster.c:2704-2865 | whole failover handler, in place: starts and wins if and only if the conditions hold, and a win leaves the node a master in the place of its old one, slot by slot |
| `ClusterState.State.UpdateSize` | redis/src/cluster.c:3505-3526 | size is the number of masters serving a slot |
| `Redirection.KeyHashSlot` | redis/src/cluster.c:621-641 | hashes the part between the first opening brace and the first closing brace after it, or the whole key |
| `Redirection.TagIsShared` | redis/src/cluster.c:621-641 | keys that share a non-empty tag share a slot |
| `Redirection.GetNodeByQuery` | redis/src/cluster.c:4974-5135 | nested key loops with their early exits give the answer stated over all keys at once: refused, moved, asked or served |
| `Redirection.RouteExactly` | redis/src/cluster.c:5016-5135 | each answer if and only if its condition holds: unbound, cross-slot, down, try again, served, asked of the node that imports the slot, moved to the owner |
| `Redirection.OrderMatters` | redis/src/cluster.c:5016-5062 | two queries with the same set of keys and the same flags get the same answer if and only if they have no keys or their first keys agree on lying in an assigned slot |
| `Redirection.TwoOrders` | redis/src/cluster.c:5026-5062 | a key of an assigned slot and a key of an unassigned one: CROSSSLOT in one order, CLUSTERDOWN for an unbound slot in the other |
| `Resharding.SourceServes` | redis/src/cluster.c:5039-5103 | the source serves the slot only while it owns it, and while migrating only requests all of whose keys it holds |
| `Resharding.TargetServes` | redis/src/cluster.c:5105-5118 | the target serves the slot before owning it only for ASKING requests with one key or with all keys present |
| `Resharding.NextSafe` | redis/src/cluster.c:4974-5135 | every step of a resharding (commands, moves, client requests at either node, expiry) keeps the keys of the slot apart, if clients say ASKING only after an ASK reply and the target is closed only when the source is open and holds no key of the slot |
| `Resharding.NeverOnBoth` | redis/src/cluster.c:4974-5135 | no run leaves a key of the moving slot on both nodes |
| `Resharding.UnaskedBreaks` | redis/src/cluster.c:5105-5118 | in every state with the target importing, a write sent with ASKING and without an ASK reply puts a key of the source on both nodes |
| `Resharding.ClosingEarlyBreaks` | redis/src/cluster.c:4018-4065 | in every state in which the source still holds a key of the slot, closing the target and writing the key there puts it on both nodes |
| `Dictionary.Dict.constructor` | redis/src/dict.c:159-190 | an empty dictionary is the empty map |
| `Dictionary.Dict.MoveBucket` | redis/src/dict.c:258-275 | one bucket moves to the new table; no entry is lost, repeated or changed |
| `Dictionary.Dict.Rehash` | redis/src/dict.c:245-288 | rehashing never changes the map; the assertion on rehashidx never fails; while more remains, n steps pass at least n and at most eleven n buckets |
| `Dictionary.Dict.RehashStep` | redis/src/dict.c:317-319 | nothing moves while a safe iterator is bound, and otherwise a rehash goes on by one to eleven buckets or ends |
| `Dictionary.NextPower` | redis/src/dict.c:948-958 | the smallest power of two that is at least the size and at least four |
| `Dictionary.Dict.Expand` | redis/src/dict.c:204-236 | succeeds exactly when no rehash is on, the entries fit and the size changes; the map is unchanged |
| `Dictionary.Dict.ExpandIfNeeded` | redis/src/dict.c:926-945 | never fails; starts a rehash if and only if none is on and the table is full and may be resized, or has six entries a bucket |
| `Dictionary.Dict.Search` | redis/src/dict.c:496-510 | lookup in both tables equals lookup in the map |
| `Dictionary.Dict.Find` | redis/src/dict.c:492-511 | the value the map has, and one step of a rehash |
| `Dictionary.Dict.KeyIndex` | redis/src/dict.c:966-988 | no bucket exactly when the key is present, otherwise its bucket in the table that takes insertions |
| `Dictionary.Dict.Add` | redis/src/dict.c:322-372 | fails exactly when the key is present, otherwise the map gains it; under a safe iterator the new tables exactly, also after a failure that has grown the table |
| `Dictionary.Dict.Replace` | redis/src/dict.c:378-403 | the map holds the value; reports exactly whether the key is new; under a safe iterator the new tables exactly |
| `Dictionary.Dict.Unlink` | redis/src/dict.c:422-436 | unlinking a key from a chain |
| `Dictionary.Dict.Delete` | redis/src/dict.c:412-447 | succeeds exactly when the key was present; the map loses it and nothing else; under a safe iterator the new tables exactly |
| `Dictionary.LookupIs` | redis/src/dict.c:492-511 | two tables with the two-table invariant look a key up as one map |
| `Dictionary.MoveBucketOk` | redis/src/dict.c:258-275 | moving a bucket keeps the two-table invariant |
| `ReverseLoop.ReverseBits` | redis/src/dict.c:758-766 | the six rounds of shifts and masks compute the bit reversal of a 64-bit word |
| `Words.RevBits` | redis/src/dict.c:758-766 | bit i of a reversed w-bit word is bit w - 1 - i of the word |
| `Scan.DictScan` | redis/src/dict.c:852-921 | one call emits exactly the entries of the buckets it visits and returns the next cursor |
| `ScanCursor.NextCursorGrows` | redis/src/dict.c:911-920 | the bit-reversed cursor is incremented above the mask, and strictly grows until it returns to zero |
| `ScanCursor.NextExpansionIsStep` | redis/src/dict.c:894-908 | the inner loop walks the expansions of the cursor in the larger table in order |
| `Scan.CallCovers` | redis/src/dict.c:884-909 | during a rehash a call emits every entry whose hash lies in its block, when the cursor's extra bits are ones then zeros |
| `Scan.BlockCoveredExactly` | redis/src/dict.c:884-909 | the expansions visited cover the whole block if and only if the cursor's extra bits are ones then zeros |
| `Scan.CallMisses` | redis/src/dict.c:884-909 | otherwise a call misses a named hash of its block |
| `ScanCursor.TwiceIsOnesThenZeros` | redis/src/dict.c:884-909 | the condition holds whenever the sizes differ by a factor of two |
| `ScanCursor.NoBitsIsOnesThenZeros` | redis/src/dict.c:884-909 | the condition holds whenever the cursor has no bit set between the two masks |
| `Scan.ScanCoverage` | redis/src/dict.c:768-921 | over every complete iteration, with the tables changing arbitrarily between calls under that condition, every entry present throughout is emitted |
| `Scan.ScanProgress` | redis/src/dict.c:768-921 | over every iteration the bit-reversed cursor strictly increases until the end |
| `Scan.ScanMissesAfterShrink` | redis/src/dict.c:768-921 | an iteration over a table shrinking from 16 to 4 buckets that never emits an entry present throughout |
| `Scan.ShrinkBreaksCondition` | redis/src/dict.c:884-909 | that iteration breaks the condition |
| `SafeIterator.NextPending` | redis/src/dict.c:578-611 | the entry returned was still to come and no longer is; every other key keeps its status |
| `SafeIterator.StepKeeps` | redis/src/dict.c:346-372 | insertions, growth, updates and deletion of the returned entry keep the iterator sound and every other key counted once |
| `SafeIterator.AddIsEvents` | redis/src/dict.c:346-372 | an insertion by the dictionary during a safe iteration is an optional growth followed by an insertion |
| `SafeIterator.ReplaceIsEvents` | redis/src/dict.c:378-403 | replacing a present key during a safe iteration is an optional growth followed by an update |
| `SafeIterator.DeleteIsEvent` | redis/src/dict.c:412-447 | deleting the entry just returned, present or not, is the delete event |
| `SafeIterator.GrowthIsEvent` | redis/src/dict.c:926-945 | an insertion that finds its key present is an optional growth and changes no membership |
| `SafeIterator.EveryKeyOnce` | redis/src/dict.c:571-622 | every safe iteration returns each key present throughout exactly once |
| `SafeIterator.Iterator.NextEntry` | redis/src/dict.c:578-611 | the iterator object returns what its specification says, and registers itself once |
| `AofCodec.CatGenericCommand` | redis/src/aof.c:449-472 | appends the printed command and changes nothing before it |
| `AofCodec.LoadFile` | redis/src/aof.c:613-710 | the loader loops read what the specification reads from the remaining bytes |
| `AofCodec.LoadArgs` | redis/src/aof.c:668-689 | the argument loop, including every way it can end |
| `AofCodec.RoundTrip` | redis/src/aof.c:449-472 | loading any printed commands, with arbitrary bytes in their arguments, gives exactly those commands |
| `AofCodec.PrefixTheorem` | redis/src/aof.c:639-756 | loading any byte prefix gives exactly the complete commands, with the valid offset at their end, and is clean exactly between commands |
| `AofCodec.CompleteIs` | redis/src/aof.c:706-709 | the complete commands are as many as fit into the prefix |
| `AofFlush.Aof.constructor` | redis/src/aof.c:237-264 | an empty file and buffer |
| `AofFlush.Aof.Feed` | redis/src/aof.c:545-549 | what is fed goes to the end of the buffer |
| `AofFlush.Aof.Flush` | redis/src/aof.c:287-425 | under full, short and failed writes and truncations that work or fail, file and buffer together remain what was fed and the recorded size is the file's; giving up leaves a prefix; the time of the postponement is set by the first call that waits, kept while waiting or with nothing to write, and cleared by every attempt |
| `AofFlush.WaitsExactly` | redis/src/aof.c:297-318 | after the first call that waits and until a write is attempted, a call waits if and only if it is not forced, the fsync goes on, and less than two seconds have passed |
| `AofFlush.WriteIsDue` | redis/src/aof.c:297-318 | over every sequence of calls, one that has something to write two seconds or more after a call that waited attempts the write, unless one in between did |
| `AofFlush.ZeroClock` | redis/src/aof.c:301-305 | with a clock that reads zero the postponement is not remembered, and a call two seconds later waits again |
| `AofFlush.RestartRecovers` | redis/src/aof.c:725-756 | from any prefix of the log a restart recovers exactly the complete commands |
| `AofBuffer.RewriteBuffer.constructor` | redis/src/aof.c:70-76 | an empty buffer |
| `AofBuffer.RewriteBuffer.Append` | redis/src/aof.c:124-168 | the bytes are appended in order over as many blocks as needed, and no block overflows |
| `AofBuffer.RewriteBuffer.SendDiff` | redis/src/aof.c:95-121 | pipe and buffer together keep their bytes and order whatever each write accepts; nothing is sent after the stop flag |
| `AofBuffer.RewriteBuffer.WriteTo` | redis/src/aof.c:173-193 | success means the whole buffer was appended; a failure leaves a prefix |
| `AofRewrite.FeedText` | redis/src/aof.c:511-543 | the text built for any command, with its handwritten SELECT equal to the printer's and commands with a time to live translated |
| `AofExpire.CatExpireAtCommand` | redis/src/aof.c:481-509 | appends the printed PEXPIREAT; for arguments in range its time is now plus a thousand times the argument for EXPIRE and SETEX, now plus the argument for PEXPIRE and PSETEX, and a thousand times the argument for EXPIREAT |
| `AofDeadlines.DeadlineIs` | redis/src/aof.c:488-499 | the deadline of each command in plain numbers, and what it wraps around to when that does not fit in 64 bits |
| `AofDeadlines.ExpireLeaves` | redis/src/db.c:943-987 | EXPIRE, PEXPIRE and EXPIREAT leave a key that is there with exactly the deadline meant, or delete it and log DEL if that has passed |
| `AofDeadlines.SetExLeaves` | redis/src/t_string.c:67-93 | SETEX and PSETEX leave the value with the deadline meant, and refuse a number that is not positive |
| `AofDeadlines.SetLeaves` | redis/src/t_string.c:67-139 | SET with EX counts seconds, with PX milliseconds, in letters of either case |
| `AofDeadlines.ConditionLeaves` | redis/src/t_string.c:80-86 | SET with NX sets only an absent key, with XX only a present one |
| `AofDeadlines.ExpireGives` | redis/src/db.c:943-1002 | on the store, for arguments in range: EXPIRE a gives now + 1000 a, PEXPIRE a gives now + a, EXPIREAT a gives 1000 a, and no other key changes |
| `AofDeadlines.SetGives` | redis/src/t_string.c:67-154 | on the store: SETEX a and SET EX a give now + 1000 a, PSETEX a and SET PX a give now + a, with the value, and no other key changes |
| `AofDeadlines.SecondsAreMillis` | redis/src/db.c:950-951 | EXPIRE leaves what PEXPIRE of a thousand times its argument leaves |
| `AofDeadlines.LoggedAs` | redis/src/aof.c:525-543 | what is logged of each command is PEXPIREAT of the moment meant, as text, after a plain SET for SETEX and PSETEX |
| `AofDeadlines.RestoredAs` | redis/src/aof.c:481-509 | loading that line gives a key the moment meant as its deadline |
| `AofExpire.AtoiLL` | redis/src/util.c:277-330 | every 64-bit number, negative ones included, is read back from its text |
| `AofExpire.SetOptions` | redis/src/t_string.c:95-139 | the option loop of SET gives the options that its grammar has, never NX with XX nor EX with PX, and an argument exactly with EX or PX |
| `AofExpire.TranslationReplays` | redis/src/aof.c:525-543 | replaying what is logged of EXPIRE, PEXPIRE, EXPIREAT, SETEX, PSETEX or SET with a time to live gives the live store, with the deadline counted from the clock reading of the log, and for SET from the time of the load |
| `AofExpire.TranslationKeeps` | redis/src/aof.c:481-543 | for these six commands, with their lookups, refusals and deletions: what is logged leads, from every store that lacks at most expired keys of the live one and whenever it is loaded, to such a store again, if and only if no deadline is set, or it is absolute, or it was made absolute from the reading it was computed from, and SET XX does not overwrite a key that expires while it runs |
| `AofExpire.LateLogging` | redis/src/aof.c:494-499 | PEXPIRE: the replayed deadline is later by exactly the time between the two clock readings |
| `AofExpire.SetXxSlips` | redis/src/t_string.c:80-86 | SET with XX of a key that expires between its two lookups sets it live and loses it in the log |
| `AofExpire.SetIsLate` | redis/src/t_string.c:77-88 | SET with PX: the replayed deadline is later by the whole time between the command and the load |
| `AofSteps.FeedStep` | redis/src/aof.c:511-557 | feeding the rewrite buffer is the command event of the protocol: the same text ends the log and the buffer |
| `AofSteps.SendStep` | redis/src/aof.c:95-121 | draining the rewrite buffer is the send event of the protocol, for as many bytes as the pipe took |
| `AofSteps.DoneStep` | redis/src/aof.c:173-193 | writing the rest of the rewrite buffer leaves the log of the done event |
| `AofReplay.EmitReplays` | redis/src/aof.c:511-524 | replaying what was emitted, whenever each command of it is loaded, runs each command in the database it was run in and leaves the others alone |
| `AofReplay.KeptFollows` | redis/src/aof.c:511-557 | a log that replays, whenever it is loaded, to what stands for the live dataset goes on doing so over every step that its logged commands keep |
| `AofRewrite.NextOk` | redis/src/aof.c:1129-1148 | every step of the parent and child, whatever commands do, keeps conservation of the fed bytes and the log in its printed form |
| `AofRewrite.NextSound` | redis/src/aof.c:1129-1148 | every kept step keeps both the log and the rewrite replaying to what stands for the dataset |
| `AofRewrite.NothingLost` | redis/src/aof.c:95-121 | at every step of every run, child difference, pipe and parent buffer together are exactly what was fed since the fork |
| `AofRewrite.LogLoads` | redis/src/aof.c:1358-1467 | in every state of every run the log loads cleanly, as the commands that were snapshot or fed |
| `AofRewrite.RewriteJoins` | redis/src/aof.c:1358-1467 | a successful rewrite leaves exactly the snapshot followed by what was fed since the fork |
| `AofRewrite.LogReplays` | redis/src/aof.c:1358-1467 | in every state of every run whose steps are kept, the log, loaded at any time, replays to what stands for the live dataset |
| `AofRewrite.RewritePreserves` | redis/src/aof.c:1358-1467 | in every run whose steps are kept, old and new log of a successful rewrite, each loaded at its own time, replay to what stands for one and the same dataset |
| `AofSnapshot.WriteSnapshot` | redis/src/aof.c:1039-1103 | the child's loops over databases and keys write the snapshot, for string values |
| `AofSnapshot.SnapshotLoads` | redis/src/aof.c:1039-1103 | whenever it is loaded, the snapshot replays to every database without the keys that the child skips |
| `AofSnapshot.ForkKept` | redis/src/aof.c:1064-1067 | that snapshot stands for the databases, up to expired keys, if and only if no deadline is negative |
| `AofSnapshot.OverflowSkipped` | redis/src/aof.c:1064-1067 | a deadline that overflowed: every lookup finds the key and the child skips it |
| `AofSnapshot.DeadlinesSurvive` | redis/src/aof.c:1358-1467 | in every run of commands that set deadlines under the condition of TranslationKeeps, with any number of rewrites, the log, loaded at any time, gives back every key that has not expired with its value and deadline |
| `AofSnapshot.LogsDiffer` | redis/src/aof.c:1358-1467 | a run with one SET PX and a rewrite after which old and new log, loaded at any time, give the key different deadlines |
| `Intset.ValueEncoding` | redis/src/intset.c:45-52 | the smallest width that holds the value |
| `Intset.SignedEncode` | redis/src/intset.c:55-94 | two's complement bytes read back as the value |
| `Intset.IntSet.constructor` | redis/src/intset.c:97-102 | the empty set |
| `Intset.IntSet.GetEncoded` | redis/src/intset.c:55-73 | the element at a position under a given width |
| `Intset.IntSet.Set` | redis/src/intset.c:81-94 | writes one element and no other byte |
| `Intset.IntSet.Search` | redis/src/intset.c:115-154 | finds the value, or the position where it belongs |
| `Intset.IntSet.Widen` | redis/src/intset.c:170-171 | widening back to front reads every element before it is overwritten |
| `Intset.IntSet.UpgradeAndAdd` | redis/src/intset.c:157-180 | all elements keep their values and order and the new one is at the right end |
| `Intset.OutOfRange` | redis/src/intset.c:209-212 | a value that needs a wider encoding lies outside the range of all elements, on the side of its sign |
| `Intset.IntSet.MoveTail` | redis/src/intset.c:182-201 | an overlapping move of the tail |
| `Intset.IntSet.Add` | redis/src/intset.c:204-231 | the set gains the value; success exactly when it is new; wider exactly when it must be |
| `Intset.IntSet.Remove` | redis/src/intset.c:234-251 | the set loses the value; success exactly when it was present |
| `Intset.IntSet.Find` | redis/src/intset.c:254-257 | membership |
| `Keyspace.Database.constructor` | redis/src/db.c:1253-1256 | an empty database |
| `Keyspace.Database.DbAdd` | redis/src/db.c:157-165 | the key enters dictionary and slot index |
| `Keyspace.Database.DbOverwrite` | redis/src/db.c:171-176 | the value changes and the expire time stays |
| `Keyspace.Database.SetKey` | redis/src/db.c:184-193 | the key holds the value and has no expire time, whether it existed, had expired or not |
| `Keyspace.Database.DbDelete` | redis/src/db.c:226-236 | the key leaves dictionary, expire table and slot index |
| `Keyspace.EmptyDb` | redis/src/db.c:276-287 | every database, its expire times and its slot index are emptied, and the keys of all are counted |
| `Keyspace.Database.MoveKey` | redis/src/db.c:760-762 | value and expire time go to the new name |
| `Keyspace.Database.Rename` | redis/src/db.c:731-771 | the reply exactly, and the whole effect on keys and expire times for each reply, with expired keys as good as absent; a refused rename changes nothing |
| `Keyspace.Database.RemoveExpire` | redis/src/db.c:840-845 | the expire time goes and its removal is reported |
| `Keyspace.Database.SetExpire` | redis/src/db.c:847-855 | the expire time is set for a key that exists |
| `Keyspace.Database.GetExpire` | redis/src/db.c:859-870 | the assertion that an expiring key exists never fails |
| `Keyspace.Database.ExpireIfNeeded` | redis/src/db.c:896-930 | expired exactly when past its time and not loading; deleted exactly on a master |
| `Keyspace.Database.GetKeysInSlot` | redis/src/db.c:1258-1272 | as many keys of the slot as asked for, each once |
| `Keyspace.Database.DelKeysInSlot` | redis/src/db.c:1276-1294 | exactly the keys of the slot go, and their number is returned |
| `Keyspace.Database.CountKeysInSlot` | redis/src/db.c:1296-1323 | the rank arithmetic gives the number of keys of the slot |
| `Keyspace.SpanOf` | redis/src/db.c:1296-1323 | the index elements of a slot are contiguous and as many as its keys |
| `Popcount.RedisPopcount` | redis/src/bitops.c:40-92 | the fast count equals the byte by byte count for every string, length and alignment |
| `Popcount.CountRound` | redis/src/bitops.c:54-87 | 28 bytes counted in parallel |
| `Popcount.CountBytes` | redis/src/bitops.c:65-80 | each byte of the word becomes the number of its ones |
| `Popcount.Gather` | redis/src/bitops.c:80-86 | the multiplication adds the four bytes in the highest one with no carry lost |
| `Bitpos.RedisBitpos` | redis/src/bitops.c:101-179 | the first bit of the value, -1 exactly when a one is missing, and the padding zero when no zero is in the string; the panic is never reached |
| `Bitpos.SkipWords` | redis/src/bitops.c:117-135 | skipped bytes and words hold no bit of the value |
| `Bitfield.SetUnsigned` | redis/src/bitops.c:202-215 | writes the low bits at the offset and changes no other bit |
| `Bitfield.SetSigned` | redis/src/bitops.c:217-220 | writes two's complement and changes no other bit |
| `Bitfield.GetUnsigned` | redis/src/bitops.c:222-234 | the number that the bits spell |
| `Bitfield.GetSigned` | redis/src/bitops.c:236-256 | the number that the bits spell in two's complement |
| `Bitfield.WriteThenRead` | redis/src/bitops.c:202-234 | reading undoes writing, up to the width of the field |
| `Bitfield.SignedRoundTrip` | redis/src/bitops.c:217-256 | reading undoes writing for every signed value in range |
| `Bitfield.CheckUnsigned` | redis/src/bitops.c:281-316 | for stored values non-zero exactly when the sum leaves the range; wrapped results congruent and in range, saturated ones clamped; a wrapped underflow reports 1 |
| `Bitfield.CheckSigned` | redis/src/bitops.c:318-368 | the same for signed fields |
| `Bitfield.WrapUnique` | redis/src/bitops.c:304-315 | the wrapped result is the only congruent value in range |
| `Bitop.ComputeBitop` | redis/src/bitops.c:649-734 | the result is the bytewise combination of the strings extended with zeroes, as long as the longest |
| `Bitop.FastPath` | redis/src/bitops.c:659-715 | 32 bytes of every string at a time give the same bytes |
| `Bitop.WordOp` | redis/src/bitops.c:659-715 | an operation on words acts on their bytes one by one |
| `Bitop.CombineByte` | redis/src/bitops.c:720-733 | the byte loop |
| `Bitop.ApplyBits` | redis/src/bitops.c:720-733 | an operation on numbers acts on their bits one by one |

## Left out

- The Discord bot in `lib/`, sockets, event loop, threads, signals, logging and reference counts.
- Cluster gossip, failure detection, handshakes, restarts, hard reset, forced takeover and the
  choice of a target for replica migration; failure flags and new nodes enter as commands.
- ClusterState.State.OnPing: the gossip section of a ping, handshakes and address updates.
- The cluster state flag and its rejoin delays in `clusterUpdateState`; only the cluster size is modelled.
- Epochs that wrap around at 64 bits.
- Packing of node bitmaps into bytes; a bitmap is a set of slots, and the two arrays of migrating
  and importing slots are maps.
- Resharding.NextSafe: pings and epoch changes during a resharding, migrations from target to source, and MIGRATE with
  COPY or with a lost reply.
- Relinking of chain pointers in place: chains and bucket arrays are values held by the dictionary. Tables above
  2^31 buckets.
- `dictGetRandomKey`, `dictGetSomeKeys`, fingerprints of unsafe iterators and statistics.
- AofExpire.TranslationKeeps: a master; on a replica a deadline in the past is kept instead of deleting the key.
  Clocks that go back during a command, and the time that stands still in a script. Commands other than the six
  have an arbitrary effect, and `AofRewrite.LogReplays` asks of each step that its logged form keeps it.
- AofSnapshot.WriteSnapshot: values other than strings, which `rewriteListObject` and others write.
- A read from the difference pipe that fails while data is left in it, and switching the append-only file on
  or off at run time.
- A file cut off inside MULTI, where the valid offset is not moved back to the start of the transaction.
- AofCodec.RoundTrip: argument counts and lengths are below 10^20, so that a count line fits the loader's buffer.
- The internals of the skip list behind the slot index, which is a sorted sequence with ranks.
- Intset.IntSet.Add: lengths and allocation sizes that overflow 32 bits.
- Bitfield.CheckUnsigned: fields of 64 bits, which shift by the full word.
- Bitfield.CheckSigned: fields of 64 bits, and saturation of values already out of range.
- Argument parsing, replies and the growing of strings in the bit commands.
- geo.c, latency.c, config.c and other files of the repository.
