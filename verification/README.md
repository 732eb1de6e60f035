# GoWAN selection engine, verified

A Dafny model of the multi-WAN daemon's decisions, with proofs about whole runs of it.

- `Rotation.dfy`, `Fairness.dfy`: the weighted, tiered, health-aware round-robin as a value,
  and what any number of consecutive picks amounts to.
- `Text.dfy`, `Address.dfy`, `Policy.dfy`: ASCII text functions, IP addresses and nets, and policy
  rules; what a rule matches is also said with leading bits and dot-separated labels.
- `Selection.dfy`, `Runs.dfy`: policy and sticky routing on top of the rotation, and runs of
  many connections mixed with health flips, reloads of backends and policies, and changes of the
  sticky settings.
- `Backends.dfy`, `Reload.dfy`, `Dialling.dfy`: the objects behind WANs and connections, what a
  reload makes of the backends file, and what one connection dials.
- `Trace.dfy`: a dispatch, with all that other goroutines do meanwhile, as a run of `Runs.dfy`.
- `Leftover.dfy`: which reloads let a dispatch give up with an eligible backend undialled.
- `Pipe.dfy`: the goroutines that copy a connection's two directions and report its end.
- `Selector.dfy`: the daemon's mutable state. The list of `Backend` objects, the cursor, the sticky
  map, connection accounting, reload, and the dial loop with other goroutines in between. Every
  method but the dial loop is one critical section, proved against the value-level functions.
- `Health.dfy`: the fail/rise state machine, the checker that publishes its verdict, what the
  verdict says of the history, and how seldom it flips.
- `Usage.dfy`, `UsageLaws.dfy`: the day, month and all-time accumulators with 64-bit wrap-around
  and the 90-entry history. The record class is proved once; both directions are the same channel.
- `Sniff.dfy`: the TLS server-name parser, its inverse and its behaviour on short reads.
- `Udp.dfy`, `UdpRuns.dfy`: the UDP flow table on top of the selector's connection accounting.

Eligibility enters the rotation as *weights*: the contention ratio of a backend that may serve
this pick, 0 for one that may not; W is their sum. A state is `Sound` (class invariant `Selector.Valid`) when the
cursor is inside the list and stands at a backend with credit below its ratio. `Valid` does not
need distinct backend addresses: two list positions may share one object.

Inputs the daemon gets from outside are parameters: dial outcomes, whether sockets open, which
addresses are IPv4 and on which interface, the clock, what other goroutines do, parsed IP
addresses, and how the server-name parser lowercases bytes. Domain rules are matched in ASCII lower
case. Sticky stability is stated for the backend *name*; where names are distinct that is the
backend itself.

Four expectations one may have of the code do not hold of it as they read:

- gowan/src/dispatch.go:29-30 speaks of one full pass over the backend list before giving up. With
  several metrics the code gives up once the active tier, and the pinned first choice if there is
  one, has been dialled. `FullPassIff` says, for pinned and unpinned connections, exactly when that
  is the whole list; `BackupNotDialled` has a list where nobody is picked after the first dial
  failed, with a backend UP and never dialled.
- "Tried" (gowan/src/dispatch.go:72, gowan/src/main.go:90) remembers list positions, and a reload
  puts other backends at them (gowan/src/reload.go:146), so giving up can leave an eligible backend
  undialled: `PositionsGoStale` has one. `LeftoverIff` says for any sequence of reloads exactly when
  this can happen: some eligible address of the last list is such that at every eligible position
  some list of the dispatch had another. `DistinctLeftoverIff` is the case of a last list without
  duplicates: some list had another address at an eligible place of it. `OneReloadIff` is the case
  of a single reload with no attempt after it. `Dispatch` meets the same condition from the other
  side: whatever it leaves out satisfies it. So nobody is left out while reloads put no address at
  another place (`KeptPlacesAreServed`), and without reloads no backend object is.
- PLAN.md:788 has a backend that goes DOWN invalidate its sticky entries. The code keeps the entry
  and only skips it: by `OutageForgotten` a backend that is UP when its pinned client returns in time
  answers as before, whatever happened meanwhile; `OutageForgottenOnce` has an outage with concrete
  values. `EntryAfterRun` says for any run what a client's entry names at its end, and
  `EntryOutlivesOutage` exactly when it still names a backend that is DOWN throughout while another
  is UP.
- The month total is the sum of the history's days of that month only while the clock does not go
  back to an earlier day: `MonthAgreesWithHistory` proves it for such clocks, `AgreementStep` says
  for any date and from any state when the two agree after a sample, `AgreementKept` which sample
  ends the agreement, and `BackwardClockDisagrees` shows a run where a clock that goes back into a
  finished month does.

## Model

| member | source | states |
|---|---|---|
| Rotation.SpinStanding | gowan/src/main.go:86-117 | a pick keeps the cursor inside the list and the credit there below the ratio |
| Rotation.SpinEligible | gowan/src/main.go:74-109 | a pick happens exactly when some backend is UP in the lowest UP metric (or all are DOWN) and not excluded, and returns such a backend |
| Fairness.SpinFollowsLap | gowan/src/main.go:86-107 | one pick serves the place of a fixed schedule the rotation stands at, and moves one place on |
| Fairness.ExactShares | gowan/src/main.go:70-117 | from any standing, any W consecutive picks give every eligible backend exactly its ratio, nobody else anything, and bring the rotation back to its place |
| Fairness.OnlyEligible | gowan/src/main.go:90-106 | with somebody eligible every pick succeeds and nobody with weight 0 is ever picked |
| Fairness.BoundedDeviation | gowan/src/main.go:86-107 | k picks give backend i between floor(k/W) and ceil(k/W) times its ratio |
| Fairness.NoStarvation | gowan/src/main.go:86-107 | an eligible backend is picked within the next W - r + 1 picks |
| Fairness.StarvationBoundTight | gowan/src/main.go:86-107 | right after a backend's last turn, W - r picks pass without it, so the bound cannot be improved |
| Policy.DomainMatchByLabels | gowan/src/selection.go:159-170 | the suffix test accepts a host iff the dot-separated labels of some pattern's base end the host's labels |
| Policy.PolicyWanIsFirstMatch | gowan/src/selection.go:172-209 | the wan of the first matching rule decides, "" when no rule matches |
| Policy.RuleClaims | gowan/src/selection.go:145-191 | exactly which connections a rule of each kind claims: a client or destination address that is listed or shares the first bits with a listed net, a port in one of the ranges, a name that ends in the labels of a pattern |
| Policy.RuleLooksAtOneThing | gowan/src/selection.go:172-191 | two connections that agree in the client address, destination address, port or name get the same verdict of a rule of that kind, whatever else differs |
| Addresses.ContainsIsPrefix | gowan/src/selection.go:144-149 | a net holds exactly the addresses of its family that agree with its base in the first prefix bits |
| Addresses.NetSizes | gowan/src/selection.go:144-149 | prefix 0 holds the whole family, the full prefix the base alone, a longer prefix fewer addresses, and every net its base |
| Policy.StarAndDotAreFree | gowan/src/selection.go:159-170 | a leading "*." of a pattern and a final "." of a name change nothing |
| Policy.CaseIsFree | gowan/src/selection.go:161-162 | names that differ in case only get the same verdict |
| Policy.PlainNameIsItsPattern | gowan/src/selection.go:161-170 | a plain small-lettered name is claimed by itself as a pattern, and by no other pattern of at least its length |
| Selection.PickUsable | gowan/src/selection.go:14-48 | a pinned backend is UP and leaves the rotation alone; one served by the rotation is eligible and untried; nobody is chosen only when nobody is eligible |
| Selection.RoutingOrder | gowan/src/selection.go:14-48 | on a first attempt the first matching policy rule's backend decides if UP, else, if sticky is on, the backend of the client's entry if the deadline has not passed and it is UP, else the rotation; every later attempt is the rotation's |
| Selection.PickEntries | gowan/src/selection.go:245-298 | what a pick leaves of every client's entry, name and deadline: an honoured one is renewed, a choice of the rotation remembered, an expired one dropped if nobody is chosen, every other one left alone |
| Runs.PinnedTrafficIsInvisible | gowan/src/selection.go:31-48 | in any run of policy, sticky and fallback picks, flips and reloads, the picks served by the rotation are those of the plain round-robin run alone |
| Runs.SharesUnderPinnedTraffic | gowan/src/selection.go:31-48 | exact ratio shares among the active tier for the unpinned first attempts, however many pinned connections come in between |
| Runs.OthersKeepEntry | gowan/src/selection.go:247-298 | other clients' picks, a client's own fallback picks, flips, reloads and changes of the ttl leave the client's sticky entry as it is |
| Runs.StickyStability | gowan/src/selection.go:247-278 | a pinned client that returns within the ttl of the time, with sticky on and no policy of the time claiming it, keeps getting the same name while that stays UP and listed, through other clients' picks, flips, reloads of backends and policies and changes of the ttl |
| Runs.EntryAfterRun | gowan/src/selection.go:235-298 | after any run a client's entry names what the last deciding event left: only switching sticky off and the client's own first attempts that the rotation serves decide anything, flips and reloads nothing |
| Runs.EntryOutlivesOutage | gowan/src/selection.go:245-278 | an entry for a backend that is DOWN or gone throughout a run, with another UP, is there at its end iff sticky stays on and the client makes no first attempt that policy leaves to sticky and the rotation |
| Runs.OutageForgotten | gowan/src/selection.go:245-278 | after any run of flips, reloads, other clients' picks and setting changes, outages of its backend included, a pinned client that returns by its deadline is answered from its sticky entry if the name is UP by then and no policy rule claims it |
| Runs.OutageForgottenOnce | gowan/src/selection.go:245-278 | such an outage in a concrete two-backend state |
| Runs.ReturnAnsweredIff | gowan/src/selection.go:245-278 | after any run without it, a pinned client is answered from its entry exactly when it is in time, the name is UP and no policy rule claims it |
| Runs.LateReturnStartsAnew | gowan/src/selection.go:245-298 | after any run without it, a client that returns past its deadline, unclaimed by policy, gets the next pick of the rotation and is pinned to that, or to nothing |
| Runs.RotationPins | gowan/src/selection.go:43-47 | a first attempt served by the rotation pins the client to its choice until now + ttl |
| SelectorState.Selector.constructor | gowan/src/main.go:50-57 | the starting state satisfies the invariant and every counter is balanced |
| SelectorState.Selector.ActiveTier | gowan/src/main.go:74-84 | finds the lowest metric among UP backends, or that all are DOWN |
| SelectorState.Selector.GetLoadBalancer | gowan/src/main.go:70-117 | the in-place loop over cursor and credits returns and leaves what one pick of the value-level rotation says, and keeps the invariant |
| SelectorState.Selector.PolicyBackend | gowan/src/selection.go:193-219 | the first UP backend named by the first matching rule |
| SelectorState.Selector.StickyLookup | gowan/src/selection.go:245-278 | answers an unexpired entry with an UP backend and renews it, drops an expired one |
| SelectorState.Selector.StickyRemember | gowan/src/selection.go:280-298 | pins a named client to the backend at a position |
| SelectorState.Selector.ConfigureSticky | gowan/src/selection.go:235-243 | switching sticky off forgets every entry |
| SelectorState.Selector.PickBackend | gowan/src/selection.go:31-48 | the whole new selector state and the choice are those of the value-level selection |
| SelectorState.Selector.ConnStarted | gowan/src/main.go:36-42 | counts one more open connection on the backend and keeps all counters balanced |
| SelectorState.Selector.ConnFinished | gowan/src/main.go:44-48 | takes an open connection, which then is finished, off the backend it was started on, listed or dropped, and keeps all counters balanced; the pipe and the flow table call it so |
| Pipes.Pipe.Go | gowan/src/main.go:119-147 | a goroutine's turn: a copy that ends leaves the wait group, and the waiter reports the end only when the group is empty |
| Pipes.Pipe.Run | gowan/src/main.go:119-147 | under any schedule of the two copies and the waiter, with nothing else moving the selector between their turns, the connection is taken off its backend's count once or not at all, and it is exactly when the waiter has a turn after both copies had theirs |
| Pipes.ReportedIff | gowan/src/main.go:119-147 | the same of schedules alone: the waiter ends iff it has a turn after both copies had theirs |
| SelectorState.Selector.ApplyBackends | gowan/src/reload.go:78-152 | the addresses of the usable lines of the file, all of them, in file order and as often as there; a surviving address keeps its very object, health and counters (the frame allows no write to them), others are new and not shared; cursor and credits restart; a file without usable lines changes nothing; counters of dropped backends stay balanced; every object's settings are its own entry's, or for a surviving object that several entries name the last one's |
| Reload.UsableIsEveryLine | gowan/src/reload.go:92-104 | the entries taken are those at strictly increasing lines that hit exactly the lines that are IPv4 and on an interface |
| SelectorState.Selector.ReapplyBackends | gowan/src/reload.go:113-147 | reloading a file that lists the current, distinct addresses in order leaves the very list there was, with the file's settings |
| Reload.ReapplyIsIdentity | gowan/src/reload.go:113-147 | re-applying distinct addresses gives the same objects in the same order |
| SelectorState.Selector.Dispatch | gowan/src/dispatch.go:41-87 | every dial is pick_backend's choice for the selector of that moment, and the whole selection state (cursor, credit, health, rules, sticky entries) is left as these picks, interleaved with what other goroutines did, leave it, as a run of `Runs`; whatever other goroutines do (other picks, connections starting and those there before ending, flips, reloads, changes of policies and sticky settings) it ends, dials no position twice, only its last dial may answer, every object picked has the address listed at its position by then, and an answered connection is open and counted on the very object picked for the last dial, also if a reload dropped it meanwhile; giving up leaves no eligible position undialled, and an eligible address undialled only if at every eligible position some list had another; without a reload the objects picked are those at the dialled positions and no eligible backend is left out, whatever happens to health; with health and list unchanged it dials inside the targets, all of them before giving up, and with steady dials succeeds iff some target answers |
| Traces.WholeIsRun | gowan/src/dispatch.go:57-86 | the picks of a dispatch, one for each prefix of its log and the last empty one, with all events in between, are one run of policy, sticky and rotation that ends in the state the dispatch leaves |
| SelectorState.Selector.ServeEach | gowan/src/dispatch.go:57-86 | connections dispatched one after another, with every dial answering and nothing else happening, are each counted on the backend the next pick chooses |
| Traces.ConnectionsAreShared | gowan/src/dispatch.go:57-86 | as many unclaimed ones as the active tier's ratios sum up to are shared out exactly by ratio |
| Dialling.AnsweredIffReachable | gowan/src/dispatch.go:68-85 | with steady dial outcomes, success is the same as some target answering |
| Dialling.FullPassIff | gowan/src/dispatch.go:28-34 | the targets are the whole list iff, for an unpinned connection, all backends are DOWN or all are UP with one metric, and for one pinned by policy or sticky, everybody else is UP with a metric no larger than any listed |
| Dialling.BackupNotDialled | gowan/src/dispatch.go:28-34 | a list where the first pick is the first backend, the next is nobody, and the second is UP and undialled |
| Dialling.PositionsGoStale | gowan/src/dispatch.go:68-85 | after position 0 failed, a backend that is UP and eligible there is not picked, whoever it is |
| Dialling.KeptPlacesAreServed | gowan/src/dispatch.go:68-85 | a dispatch whose reloads change settings, append or cut off, but put no address at another place, gives up only with every eligible address dialled |
| Leftovers.LeftoverIff | gowan/src/dispatch.go:68-85 | for any reloads, final health and number n of lists the attempts may fall under: there is a course of attempts, flips and other events that ends with nobody picked and an eligible address undialled iff for some eligible address of the last list, at every eligible position one of the first n lists had another |
| Leftovers.DistinctLeftoverIff | gowan/src/dispatch.go:68-85 | with distinct last addresses there is such a course iff some list had another address at an eligible place of the last |
| Leftovers.OneReloadIff | gowan/src/dispatch.go:68-85 | for one reload and no attempt after it: iff the old list reaches every eligible position of the new and some eligible new address stood at none of them |
| Health.HealthState.constructor | gowan/src/health.go:32-44 | thresholds below 1 become 1, the verdict starts UP |
| Health.HealthState.Observe | gowan/src/health.go:46-68 | one observation moves streaks and verdict, and reports exactly whether the verdict changed |
| Health.HealthChecker.constructor | gowan/src/health.go:100-108 | a new checker has the thresholds given, at least 1, and takes over the backend's verdict with zeroed streaks |
| Health.HealthChecker.Observe | gowan/src/health.go:173-207 | a running checker's verdict is the published one after every result; a stopped checker changes nothing |
| Health.VerdictIsLastStreak | gowan/src/health.go:50-68 | after any history the verdict is UP iff the last streak to reach its threshold was one of successes, or none ever did and the seed was UP |
| Health.FlipsAreSeldom | gowan/src/health.go:50-112 | k flips from UP take at least ceil(k/2)*fail + floor(k/2)*rise observations, also across restarts with other thresholds |
| Health.FlipsBoundMet | gowan/src/health.go:50-112 | for every k and all thresholds a run of checks flips k times at exactly that cost |
| Usage.DevUsage.PushHistory | gowan/src/usage.go:46-51 | appends a finished day and keeps the last 90 |
| Usage.DevUsage.ApplySample | gowan/src/usage.go:53-85 | the in-place update folds one reading into both directions alike |
| UsageLaws.TotalConservation | gowan/src/usage.go:74-92 | all-time total = last reading - first + the readings just before each counter reset, modulo 2^64 |
| UsageLaws.DayAndMonthTraffic | gowan/src/usage.go:61-85 | day and month count exactly the traffic of the samples since the last change of date or month, modulo 2^64 |
| UsageLaws.HistoryIsTail | gowan/src/usage.go:46-51 | the history is the last 90 of all days ever archived |
| UsageLaws.TotalIsDayPlusArchive | gowan/src/usage.go:61-85 | all-time total = today + every day ever archived, modulo 2^64 |
| UsageLaws.DayWithinMonthWithinTotal | gowan/src/usage.go:61-85 | without overflow day <= month <= total, for any sequence of dates |
| UsageLaws.CapSparesMonth | gowan/src/usage.go:41-51 | the 90-entry cap never evicts a day of the current month |
| UsageLaws.MonthAgreesWithHistory | gowan/src/usage.go:41-85 | for dates that do not go back, the month = today + the history's entries of this month, modulo 2^64, after every sample |
| UsageLaws.AgreementStep | gowan/src/usage.go:61-85 | for a sample of any date, in agreement or not, exactly when month and history agree after it: on the same day iff they did, on another day of the month iff the month is the sum of the kept days of it, in another month iff the kept history has no traffic of that |
| UsageLaws.AgreementKept | gowan/src/usage.go:61-85 | from agreement, exactly which sample ends it |
| UsageLaws.BackwardClockDisagrees | gowan/src/usage.go:64-72 | a run with a clock going back where the two differ |
| Sniff.ParseTlsSni | gowan/src/sniff.go:13-69 | the cursor loop stays in bounds on every input, ends, and computes the specified name |
| Sniff.PrefixAnswers | gowan/src/sniff.go:13-69 | on the first k bytes the answer is the whole message's name if they hold its server_name extension, and "" otherwise |
| Sniff.ScanSkipsOthers | gowan/src/sniff.go:47-66 | extensions of another type before server_name are stepped over whatever they hold |
| Sniff.SniRoundTrip | gowan/src/sniff.go:13-69 | for every ClientHello with a host_name entry, whatever precedes and follows it, the parser returns exactly that name as the given lower-casing has it |
| Sniff.HelloHasName | gowan/src/sniff.go:13-69 | the name of a ClientHello given byte by byte |
| Sniff.NoHelloNoName | gowan/src/sniff.go:13-23 | bytes that are no handshake record with a ClientHello have no name |
| Sniff.FirstEntryDecides | gowan/src/sniff.go:47-66 | the first entry of the server_name extension decides, and gives no name if it is no host_name |
| Udp.UdpTable.Create | gowan/src/udp_linux.go:147-196 | the selector picks exactly once, whether a flow comes of it or not; a flow starts with exactly one counted connection, on the backend pick_backend chose, or no count changes; it fails iff nobody is chosen or a socket does not open |
| Udp.UdpTable.GetOrCreate | gowan/src/udp.go:34-54 | a packet of a known flow leaves the selector and every backend as they are, any other makes it pick once; a key resolves to its flow, or a new one is added; a failed creation stores nothing |
| Udp.UdpTable.Touch | gowan/src/udp.go:56-62 | renews a known flow's time and nothing else |
| Udp.UdpTable.Reap | gowan/src/udp.go:64-82 | removes exactly the flows idle longer than the timeout and finishes each one's connection once, touching no other connection; every flow ever made is in the table under one key or closed; what the selector picks is not affected |
| UdpRuns.Affinity | gowan/src/udp.go:39-82 | a key touched at gaps of at most the timeout always resolves to the same flow |
| UdpRuns.StepOnKey | gowan/src/udp.go:39-82 | what any event leaves of any key: only its own packets and touches renew it, and only a reap past its timeout takes it |
| UdpRuns.SeenWhenTouched | gowan/src/udp.go:39-82 | after any run a live flow shows the time it was last touched itself |
| UdpRuns.LiveFlowIsInvisible | gowan/src/udp.go:39-54 | however they mix with other traffic, packets of a live flow tell the selector nothing |
| UdpRuns.IdleBound | gowan/src/udp.go:64-95 | with a reap every timeout no flow is in the table idle for more than twice the timeout |
| UdpRuns.IdleBoundMet | gowan/src/udp.go:70-95 | the bound is reached |

## Left out

- Sockets, proxy bytes, SOCKS replies and prebuf replay, logging, hooks, state files, flags, JSON.
- Lock interleavings inside one pick, sticky call or health observation: each is one atomic step, and no claim about deadlock is made.
- The tunnel-mode loop (gowan/src/main.go:152-177): the dial loop without a pinned first choice.
- Backends from command-line arguments (parse_load_balancers): lists come from a backends file, applied to the empty selector.
- How a connection's addresses, port and name are taken from what it dials (gowan/src/dispatch.go:41-55): requests are inputs.
- Text parsing of policies (set_policies, parse_port_range), addresses and the HTTP Host header.
- Starting and stopping checker goroutines inside a reload: checkers are modelled one by one, and a dial failure reaches a verdict as one of the things other goroutines do.
- SelectorState.Selector.ConnStarted: active_conns is an unbounded integer, because overflowing it takes 2^63 connections open at once; total_conns wraps at 2^64.
