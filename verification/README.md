# tlscheck: verified model

tlscheck probes the TLS endpoints of a Teleport cluster.  From the options and a table of services it
builds a *plan* of targets, probes every target on every address as often as asked, collects the
certificates it sees, sorts the results and merges all certificates into one report.  It also reads the
machine's routing table and merges extra HTTP headers from the command line and from a configuration
file.  This project models that deterministic spine in Dafny and proves what the program promises about
it.  `dafny verify dfyconfig.toml` checks everything.

## How the model is laid out

| file | component |
|---|---|
| `targets.dfy`, `service_table.dfy`, `plan_facts.dfy` | the plan as a value: filter, templates, cross product, and what its targets are |
| `slices.dfy`, `plan_build.dfy` | the plan as the program builds it: Go slices, shallow and deep copies, in-place appends |
| `sorting.dfy`, `reports.dfy` | the in-place sort and the report order |
| `certs.dfy`, `engine.dfy`, `copies.dfy` | the probe engine: outcome of a probe, certificate store and what its copies share, `Run` |
| `runner.dfy`, `twins.dfy`, `addresses.dfy` | `Execute`, the certificate merge and the end-to-end theorems |
| `netmask.dfy`, `routes.dfy`, `route_tables.dfy` | netmasks, the kernel's hexadecimal addresses, the routing-table scanners and their round trips |
| `headers.dfy` | header layers and the host CA endpoint loop |
| `version.dfy`, `hex.dfy` | version strings, upgrade sequence, base16 identity, key identifiers |
| `text.dfy`, `lists.dfy`, `maps.dfy` | the parts of Go's `strings` and `strconv` in use, sequences, loops over maps |

Every operation that the program writes as a loop or an update is a method proved against a
specification function; what the program promises is then proved of those functions and of every run, and
the main specification functions are characterised by lemmas that do not mention them.

* **The heap.**  A plan under construction is made of `PlanBuild.Target`s that hold arrays (slices), a
  header map and a pointer to a flag; `View` is a target's value.  `Append` writes in place when there is
  spare room and reallocates, with any amount of new room, when there is none.
* **The network.**  A `Wire` says what happens outside the engine in one probe: clock readings, proxy setup, dialling,
  handshake, chain, protocol.  A run takes one `Wire` a probe, so a theorem about `Run` is about every network.  The resolver
  is a function of target index and address.  SHA-256, PEM, X.509 parsing and verification, `path.Match` and
  the host CA request are unknown functions; of `pem.Decode` alone something is required, namely that the rest is shorter than the
  input.
* **Go maps** are iterated in an arbitrary order: each loop takes any remaining key.
* **The sort** is an in-place insertion sort; `sort.Slice` may leave equal elements in another order, and
  `Reports.ReportOrderIsUnique` shows that no correct sort can be told from another by service, address and attempt.
* **Numbers.**  Version components wrap around at 64 bits as Go's `int` does; `Atoi` and `Sscanf` fail beyond it.
* **Text.**  Strings are sequences of code points, whose order is that of their UTF-8 bytes.  `ToLower` maps the code points
  whose lower case is ASCII and leaves all others alone.  An empty slice or map is nil: it counts as no memory.

## What the proofs found in the code

* `SelectionOfRawFilter`: `Build` normalises a filter entry, `WantsService` does not, so they disagree on
  entries with spaces or capitals.  `SelectionAgreement` says exactly when they agree on every key; on filters from the command line they always do.
* `BandMatchesSequence`: version 15.0 is described as "v15–v17" but gets the upgrade sequence of earlier versions.
* `ParseOfPrinted`: parsing gives a printed version back exactly when both numbers fit 64 bits.
* `ClientFingerprintIsCurrent`, `StaleFingerprint`: a second `SetClientCert` whose first PEM block is no certificate
  keeps the first certificate's fingerprint.  The program calls it at most once.
* `WriteThroughCopy`: `GetCertificates` says that it copies "to prevent external modifications", but a copy has the
  trust record and the slices of its original.  Exactly the writes to those reach the store.
* `OrderMatters`: header names that collide after trimming within one configuration entry take a value that
  depends on map iteration order, unless the colliding values are equal.
* `Build`: duplication for a proxy alone leaves two targets sharing every slice that is not nil except their notes,
  and every duplication leaves them sharing the client certificate flag, so a write through one shows in the other
  (`WriteThroughTwin`, `WriteFlagThroughCopy`).  Nothing is shared exactly when there are no targets, or nothing is
  duplicated, or no client certificate is configured and there are extra headers or no target has a slice to share, as
  with a database listener whose address does not resolve.

## Model

| member | source | states |
|---|---|---|
| `Runner.RunProgram` | cmd/tlscheck/main.go:103-130 | from a new engine, with any client certificate, host CA, filter, resolver and network: it ends early exactly when the host CA text holds no certificate, and fails exactly on a filter naming an unknown service; otherwise the report is one account of every probe that options and resolver call for and of no other, sorted by first appearance of the service, address in dictionary order and ascending attempt; every fingerprint it mentions is a key of the certificates; services stand in blocks in table order; and with a proxy, proxied and direct results are in bijection |
| `Runner.RunServices` | cmd/tlscheck/main.go:103-130 | the same for any table of services with distinct keys |
| `Runner.Execute` | internal/runner/runner.go:53-126 | the same for any engine whose links hold; the certificates are exactly the merge of all chains seen with the other sources, and the plan still shows the declared targets afterwards |
| `Runner.ExecutePlan` | internal/runner/runner.go:69-123 | the part after `Build`: accounts, order, links, blocks and bijection of the report, and the targets of the plan unchanged |
| `Runner.ExecutionIsLinked` | internal/runner/runner.go:69-123 | referential integrity: after any run over any network, every leaf, chain and client fingerprint of a result and every issuer link of an entry is a key of the merged map |
| `Runner.ReportFollowsTemplates` | internal/probe/engine.go:181-216 | for every plan of `Build`, the sorted results form one contiguous block per service, the blocks in template order restricted to the selected services |
| `Runner.ReportSize` | internal/probe/engine.go:181-213 | conservation: the report has header factor x proxy factor x the sum over base targets of addresses x max(1, repeat) results |
| `Twins.ReportBalances` | internal/plan/plan.go:116-137 | with a proxy, proxied and direct results are in bijection up to proxy fields and notes: for each target without those (port, names, protocols, headers and certificate variant included) and each attempt, the report has as many of one kind as of the other |
| `Twins.PlanBalances` | internal/plan/plan.go:116-158 | the same of the planned probes, with or without the duplication for headers |
| `Runner.CollectCerts` | internal/runner/runner.go:81-123 | the merge, in any iteration order, gives client collector over server over client PEM over host CA |
| `Runner.MergedMeaning` | internal/runner/runner.go:81-123 | key by key: a merged record is the client collector's, else the server's, else the client PEM's, else the host CA's |
| `Runner.AddClientCerts` | internal/runner/runner.go:93-98 | the client collector overwrites what the server gave and leaves all other entries' values alone |
| `Runner.AddBundle` | internal/runner/runner.go:102-119 | a PEM bundle only fills in fingerprints that are missing |
| `Runner.MergedKeepsLinks` | internal/runner/runner.go:81-123 | the merge keeps every key equal to its entry's fingerprint and every issuer link leading to a key |
| `Runner.CollectorCerts` | internal/runner/runner.go:84-98 | server collector, then client collector over it |
| `Runner.ProbePlan` | internal/runner/runner.go:69-123 | run and merge together: the certificates are those of all chains seen, under the merge precedence, and no target of the plan changes |
| `Runner.NewEngine` | cmd/tlscheck/main.go:104-124 | host CA roots exactly when there is a bundle, the client certificate exactly when there are certificate and key; the recorded fingerprint is the certificate's own |
| `Runner.BuildPlan` | internal/runner/runner.go:64-67 | an execution has a plan unless the filter names an unknown service, and the targets it goes on with are the declared ones |
| `Reports.SortResults` | internal/probe/engine.go:556-585 | the array ends as a permutation of the results ordered by first appearance of the service, address bytes and attempt |
| `Reports.ReportOrderMeaning` | internal/probe/engine.go:556-585 | without the comparison: a report order is a permutation in which the service that appears first comes first, then the address that comes first in a dictionary, then the smaller attempt; and every such permutation is one |
| `Text.BeforeMeaning` | internal/probe/engine.go:578-580 | the order of strings: after a common beginning the first ends or has the smaller code point |
| `Reports.LessIsStrictWeakOrder` | internal/probe/engine.go:568-584 | the comparison is a strict weak order for any service index, and results are incomparable exactly when index, address and attempt coincide |
| `Reports.ReportOrderIsUnique` | internal/probe/engine.go:567-584 | any two correct sorts of the same results show the same sequence of service, address and attempt |
| `Reports.ReportKeepsFirstAppearance` | internal/probe/engine.go:557-565 | the index of first appearance computed on the output is the one computed on the input |
| `Reports.ReportIsStable` | internal/probe/engine.go:556-585 | a sorted report satisfies its own order, and sorting it again changes no service, address or attempt |
| `Reports.ReportIsInBlocks` | internal/probe/engine.go:555-585 | each service's results stand together |
| `Sorting.SortSlice` | internal/probe/engine.go:567-584 | in-place sorting by any strict weak order gives an ordered permutation |
| `Sorting.SortedKeysAreUnique` | internal/probe/engine.go:567-584 | two ordered permutations agree position by position on whatever key the order compares |
| `PlanBuild.Build` | internal/plan/plan.go:67-161 | succeeds exactly when every normalised filter key names a template; its targets are then the declarative plan in order and its upgrade path the one that the version calls for; notes are never shared; and no two targets share a slice, a header map or a certificate flag if and only if there are no targets, or neither proxy nor extra headers, or no client certificate and (extra headers, or every base target with empty addresses, names, protocols and upgrades) |
| `PlanBuild.InstantiateAll` | internal/plan/plan.go:72-108 | the loop over templates instantiates the selected ones in order and leaves exactly the unknown keys in the filter |
| `PlanBuild.Instantiate` | internal/plan/plan.go:177-261 | one template's targets are its declarative instances in fresh memory, no two sharing any, flags included |
| `PlanBuild.AllPorts` | internal/plan/plan.go:202-252 | the loop over ports yields the certificate variants of every port in order, all in separate memory |
| `PlanBuild.PortTargets` | internal/plan/plan.go:203-251 | one port gives the with/without pair of deep copies, or a single target, with the flag set only when a certificate is configured |
| `PlanBuild.AddHint` | internal/plan/plan.go:255-258 | appending the hint to the first target, in place or not, changes no other target's value and keeps all memory separate |
| `PlanBuild.DeepCopy` | internal/plan/plan.go:284-294 | same value in memory that is all new, except the certificate flag's pointer, which is kept |
| `PlanBuild.ResolveAll` | internal/plan/plan.go:112-114 | every target without override addresses gets its resolver's answer, if any, in a new slice; nothing else changes |
| `PlanBuild.ProxyTwin` | internal/plan/plan.go:123-136 | the shallow copies share all memory with the original but their notes, which are new and distinct |
| `PlanBuild.DuplicateForProxy` | internal/plan/plan.go:117-137 | the targets become proxied/direct pairs in order, no notes shared and all other memory shared within each pair |
| `PlanBuild.DuplicateForHeaders` | internal/plan/plan.go:140-158 | the targets become without/with pairs in order, in new memory that no two share, except that both copies keep the flag of their original |
| `PlanBuild.Duplicate` | internal/plan/plan.go:116-158 | after both duplications notes are separate, and nothing is shared exactly when nothing was duplicated, or no target has a flag and there are headers or no target has a list |
| `PlanBuild.TwinsShareNothing` | internal/plan/plan.go:116-137 | duplication for a proxy alone leaves nothing shared if and only if no original target has a list, a header map or a flag |
| `PlanBuild.TwinsShare` | internal/plan/plan.go:123-136 | a proxied and a direct twin share memory exactly when the original has some list or map besides its notes, or a flag |
| `PlanBuild.CopiesShareNothing` | internal/plan/plan.go:146-157 | duplication for headers leaves nothing shared if and only if no original target has a flag |
| `Targets.BaseFlags` | internal/plan/plan.go:227-252 | every base target has a flag exactly when a client certificate is configured |
| `PlanBuild.JoinMapKeys` | internal/plan/plan.go:603-610 | whatever order the map is iterated in, the names come out sorted and joined |
| `PlanBuild.SortedNamesAreSorted` | internal/plan/plan.go:603-610 | the names are a sorted permutation of the keys |
| `PlanBuild.WriteNote` | internal/plan/plan.go:120-157 | writing a note of one target of a finished plan changes no other target |
| `PlanBuild.AppendNote` | internal/plan/plan.go:120-157 | appending to the notes of one target, with or without spare room, changes no other target |
| `PlanBuild.WriteElement` | internal/plan/plan.go:140-158 | when nothing is shared, writing through any slice of one target, of whatever element type, changes no other target |
| `PlanBuild.WriteHeader` | internal/plan/plan.go:140-158 | nor does writing to its header map |
| `PlanBuild.WriteFlag` | internal/plan/plan.go:228-248 | nor does setting its certificate flag |
| `PlanBuild.WriteThroughTwin` | internal/plan/plan.go:123-136 | between the twins of a proxy duplication, a write to a shared slice does show |
| `PlanBuild.WriteFlagThroughCopy` | internal/plan/plan.go:284-294 | between two copies of one target, deep or shallow, setting the flag does show |
| `Slices.Append` | internal/plan/plan.go:249-257 | Go's append: in place when there is room, otherwise reallocated, and the old slice reads as before either way |
| `Slices.Clone` | internal/sliceutil/sliceutil.go:16-23 | equal content in new memory |
| `Targets.PlanIsCrossProduct` | internal/plan/plan.go:116-158 | target number (b x proxies + p) x headers + h is base target b with proxy variant p and header variant h, every other field carried through |
| `Targets.TemplateIsCrossProduct` | internal/plan/plan.go:177-261 | target number p x variants + v of a template is port p with certificate variant v, and only the first carries the base16 hint |
| `Targets.PlanSize` | internal/plan/plan.go:116-158 | the plan has base targets x proxy factor x header factor targets |
| `Targets.ProxyTwins` | internal/plan/plan.go:123-136 | every proxied target has a direct twin that differs in the proxy fields and one note only |
| `Targets.PlanServices` | internal/plan/plan.go:90-158 | the plan's services first appear in template order, restricted to the selected ones |
| `Targets.MakeUnique` | internal/plan/plan.go:539-554 | the normalised non-blank values, each at its first appearance |
| `Targets.SplitList` | internal/config/options.go:257-271 | the trimmed non-blank parts in order, lower-cased on request |
| `Targets.WantsService` | internal/config/options.go:303-314 | true exactly for an empty filter or one that contains the lower-cased key |
| `Targets.SelectionMatchesWantsService` | internal/config/options.go:253-271 | on every command-line filter, `Build` selects a service exactly when `WantsService` says so |
| `Targets.SelectionOfAnyFilter` | internal/plan/plan.go:72-96 | on any filter a key is selected exactly when some entry normalises to it |
| `PlanFacts.SelectionOfWrittenKey` | internal/plan/plan.go:539-554 | an entry selects its service however it is capitalised and whatever white space is around it |
| `PlanFacts.ListRoundTrip` | internal/config/options.go:253-271 | a comma-separated list of keys, so written, is split into these keys in order |
| `Targets.SelectionAgreement` | internal/config/options.go:303-314 | `Build` and `WantsService` agree on every key if and only if the filter holds every key that one of its entries normalises to |
| `Targets.SelectionOfRawFilter` | internal/config/options.go:303-314 | they disagree on every entry that is a key behind a space |
| `ServiceTable.TableKeys` | internal/plan/plan.go:296-477 | the table's keys, in order |
| `ServiceTable.TableIsWellFormed` | internal/plan/plan.go:296-448 | keys are distinct and every service is probed on exactly one port |
| `PlanFacts.TargetsOfServices` | internal/plan/plan.go:177-468 | every target of a plan of the built-in services has the port, server name, protocols, trust, upgrades and informational mark of its service |
| `PlanFacts.ProxyOfTarget` | internal/plan/plan.go:556-566 | proxied targets go through HTTPS_PROXY, else HTTP_PROXY, and there are none without either |
| `PlanFacts.InformationalIsNoted` | internal/plan/plan.go:222-225 | an informational target says so in its notes |
| `ServiceTable.ListFreeServices` | internal/plan/plan.go:202-220 | of the built-in services exactly the four database listeners have no list to share, as long as no addresses are given |
| `Probe.Engine.Run` | internal/probe/engine.go:174-220 | one accounted result per job of the plan, sorted, and the store holds what was there and all chains seen |
| `Probe.Engine.ProbeAll` | internal/probe/engine.go:180-213 | results come in plan order, one for every target, address and attempt |
| `Probe.Engine.ProbeOneTarget` | internal/probe/engine.go:181-212 | all addresses of a target: the overrides, else the resolved ones, else the address itself |
| `Addresses.JobsOfPlanned` | internal/probe/engine.go:182-212 | from options and resolver alone: a plan target's jobs are on the given addresses, else the resolver's answer for its base target, else the public address, in order, each with attempts 1 to max(1, repeat) |
| `Addresses.ReportCoversPlan` | internal/probe/engine.go:181-216 | the report is on exactly those jobs |
| `Addresses.JobIsPlanned` | internal/probe/engine.go:181-212 | nothing else is probed |
| `Addresses.PlannedIsJob` | internal/probe/engine.go:181-212 | and nothing of it is left out |
| `Addresses.PlanInNumbers` | internal/probe/engine.go:181-213 | the number of probes: doubled by a proxy, doubled by extra headers, times max(1, repeat), times the number of addresses |
| `Addresses.GivenAddresses` | internal/probe/engine.go:183-191 | with given addresses, each base target has exactly that many |
| `Probe.Engine.ProbeAddress` | internal/probe/engine.go:204-211 | max(1, repeat) attempts numbered from 1 |
| `Probe.Engine.ProbeOnce` | internal/probe/engine.go:222-366 | on every return path: `Failure` is nil exactly when proxy setup, dial, handshake, protocol and trust all succeed; the kind is that of the first stage to fail; total is at least dial plus handshake time under a steady clock; times, addresses, protocol, byte counts, leaf details and chain are those of the connection |
| `Probe.OutcomeMeaning` | internal/probe/engine.go:241-481 | stage by stage, what the failure of any accounted result is: a host CA target is verified against the host CA and fails without one, any other against the system's certificates or, without any, the platform's |
| `Probe.TrustIsIndependent` | internal/probe/engine.go:464-474 | the system's certificates do not influence the outcome of a host CA target, nor the host CA that of any other |
| `Probe.ShownMeaning` | internal/probe/engine.go:234-240 | the chain is shown whenever a connection stood, and the client certificate exactly on targets that use it |
| `Probe.Engine.StartProbe` | internal/probe/engine.go:222-278 | a probe ends early exactly when proxy setup or dialling fails, with a full account |
| `Probe.Engine.FinishProbe` | internal/probe/engine.go:300-366 | what handshake and checks add to a started result, and the chain goes into the store even when the handshake fails |
| `Probe.Engine.CheckOutcome` | internal/probe/engine.go:330-358 | after a handshake, no failure exactly when the probe succeeds as a whole, otherwise the right kind |
| `Probe.Engine.VerifyPeerCertificate` | internal/probe/engine.go:447-481 | no failure exactly when there is a chain, the strategy's roots are available and the leaf verifies against them under the target's name |
| `Probe.Engine.CaptureCertificateDetails` | internal/probe/engine.go:368-440 | leaf details and chain of a result, and the store after the chain |
| `Probe.Engine.CaptureChain` | internal/probe/engine.go:391-439 | chain fingerprints in order; exactly the certificates not seen before are recorded |
| `Probe.Engine.Record` | internal/probe/engine.go:411-435 | a new certificate is recorded, a known one changes nothing |
| `Probe.Engine.NewServerInfo` | internal/probe/engine.go:413-432 | the recorded issuer is what a linear search of the chain finds, and the trust verdict follows from it |
| `Probe.Engine.GetCertificates` | internal/probe/engine.go:87-102 | a new record with the same value for each certificate; the copy has the trust record and the slices of its original |
| `Copies.WriteThroughCopy` | internal/probe/engine.go:94-100 | a write through a returned copy leaves every stored record as it was if and only if it is to a field of the copy itself, neither to the trust record nor to an element of a slice; otherwise it shows in the stored record |
| `Probe.Engine.GetClientCertificates` | internal/probe/engine.go:106-120 | the configured certificate under its recorded fingerprint, or nothing |
| `Probe.ClientRecord` | internal/probe/engine.go:106-120 | when there is a record, its key and every field of it |
| `Probe.Engine.SetClientCert` | internal/probe/engine.go:61-83 | ignored unless certificate and key form a pair; the fingerprint changes only when the first block is a certificate |
| `Probe.Engine.constructor` | internal/probe/engine.go:154-169 | a new engine has an empty store and no client certificate |
| `Probe.ClientFingerprintIsCurrent` | internal/probe/engine.go:61-83 | after one call the fingerprint belongs to the kept certificate; after another it does exactly unless that call installs a pair without a leading certificate over an older fingerprint |
| `Probe.StaleFingerprint` | internal/probe/engine.go:66-82 | two calls that do leave a stale fingerprint: both pairs are accepted, and the second certificate stands behind a parameters block |
| `Probe.JobsOfTarget` | internal/probe/engine.go:197-212 | job number p x repeats + a is address p with attempt a + 1 |
| `Probe.JobCount` | internal/probe/engine.go:181-213 | the number of jobs is the sum of addresses x max(1, repeat) |
| `Probe.ProbesOfPlan` | internal/plan/plan.go:116-158 | duplication multiplies the number of probes by the proxy and header factors exactly |
| `Probe.JobServices` | internal/probe/engine.go:181-213 | jobs keep the order of services |
| `Certs.IndexByKey` | internal/probe/engine.go:396-404 | looking up a printed key identifier gives what the linear search by bytes gives |
| `Certs.LastWithKeyMeaning` | internal/probe/engine.go:421-426 | the search gives the last certificate of the chain with that subject key identifier, or nothing when there is none |
| `Certs.CapturedMeaning` | internal/probe/engine.go:406-436 | old entries are untouched, the keys gained are the chain's, and each new entry is that of the first certificate with its fingerprint |
| `Certs.LinkMeaning` | internal/probe/engine.go:421-426 | the issuer of a certificate is the last one in the chain whose subject key identifier is its authority key identifier, and none without such a one |
| `Certs.ServerEntryMeaning` | internal/probe/engine.go:413-432 | every field of a captured record: fingerprint, text, key identifiers, source, issuer and verdict |
| `Certs.CapturedRecord` | internal/probe/engine.go:406-436 | a new fingerprint gets such a record of the first certificate with it in the chain |
| `Certs.RunRecord` | internal/probe/engine.go:406-436 | over a whole run it is that of the first certificate in the first chain that shows it |
| `Certs.RunKeys` | internal/probe/engine.go:406-436 | the keys after a run are those from before and the fingerprints of all chains |
| `Certs.CaptureKeepsLinks` | internal/probe/engine.go:406-436 | capturing keeps every key its entry's fingerprint and every issuer link leading to a key |
| `Certs.RunKeepsLinks` | internal/probe/engine.go:373-438 | the same over any sequence of chains |
| `Certs.RunKeepsEntries` | internal/probe/engine.go:411-435 | over any sequence of chains keys only grow and a stored entry never changes |
| `Certs.RunHasChain` | internal/probe/engine.go:406-438 | every fingerprint of every captured chain is a key at the end |
| `Certs.CheckMITMSuspicion` | internal/probe/refcerts.go:67-122 | confirming references in order, the last contradicting one as the reason, nothing when no reference speaks |
| `Certs.ReferenceVerdict` | internal/probe/refcerts.go:67-122 | against the built-in references: confirmed by name and fingerprint, suspect with the name and another fingerprint, not judged otherwise, with every field of the verdict |
| `Certs.ParseCertBundleFromPEM` | internal/probe/certinfo.go:326-348 | the certificates of a bundle by fingerprint, the later of two hiding the earlier, other blocks passed over |
| `Certs.BundleMeaning` | internal/probe/certinfo.go:326-348 | a fingerprint of a bundle has the record of the last certificate with it, field by field, under the given source |
| `Certs.ParseCertFromPEM` | internal/probe/certinfo.go:298-310 | the certificate of the first block, or nothing |
| `Certs.NewLists` | internal/probe/certinfo.go:182-197 | the slices of a record hold the certificate's lists in new memory, an empty list being nil |
| `Certs.CertInfo.Copy` | internal/probe/engine.go:97-99 | the fields are copied, the trust record and the slices are those of the original |
| `Certs.CertInfo.SetIssuerFingerprint` | internal/probe/certinfo.go:313-315 | sets this field and no other |
| `Certs.CertInfo.SetSource` | internal/probe/certinfo.go:318-320 | sets this field and no other |
| `Hex.FormatKeyID` | internal/probe/certinfo.go:250-260 | the text of a key identifier: upper-case bytes between colons |
| `Hex.KeyIDTextIsInjective` | internal/probe/certinfo.go:250-260 | equal texts mean equal key identifiers |
| `Hex.HexRoundTrip` | internal/plan/plan.go:70 | decoding the hexadecimal text of bytes, in either case, gives the bytes |
| `Hex.UpperHexIsUpper` | internal/probe/certinfo.go:203-206 | fingerprints are in upper case |
| `Hex.Utf8IsInjective` | internal/plan/plan.go:70 | distinct strings have distinct bytes |
| `Netmask.MaskToCIDR` | internal/discovery/network.go:881-908 | the bit loops with their early abort compute the prefix length of the whole mask, 0 for a malformed or non-contiguous one |
| `Netmask.ScanOctet` | internal/discovery/network.go:894-905 | one octet either extends a run of ones and zeros or proves that no prefix length fits |
| `Netmask.MaskLengthIsExact` | internal/discovery/network.go:881-908 | for n from 1 to 32 the result is n exactly when the 32-bit mask is 2^32 - 2^(32-n) |
| `Netmask.MalformedMask` | internal/discovery/network.go:882-893 | a text that is not four numbers gives 0 |
| `Netmask.MaskByValue` | internal/discovery/network.go:887-907 | n ones then zeros are exactly the number 2^m - 2^(m-n) |
| `Netmask.HexToIP` | internal/discovery/network.go:860-878 | eight hexadecimal digits give their little-endian quad, any other text gives the empty string |
| `Netmask.HexToIPInverts` | internal/discovery/network.go:858-878 | decoding the little-endian digits of four bytes, in either case, gives their dotted quad |
| `Netmask.HexTextOnly` | internal/discovery/network.go:860-874 | an address comes out exactly for eight hexadecimal digits of either case |
| `Netmask.DottedRoundTrip` | internal/discovery/network.go:876-893 | a dotted quad parses back to its octets |
| `Netmask.PrefixLengthSurvives` | internal/discovery/network.go:829-830 | `maskToCIDR` after `hexToIP` recovers n from the encoded /n mask, for n from 0 to 32 |
| `Routes.ParseLinuxRoutes` | internal/discovery/network.go:738-789 | the routes are those of the lines with two tokens or more, in order |
| `Routes.ScanLine` | internal/discovery/network.go:757-783 | the loop with its skipped index reads the clauses from left to right |
| `Routes.TableRoundTrip` | internal/discovery/network.go:738-789 | printing any list of routes, with any other words around the clauses, and parsing gives the same list |
| `Routes.ScanOfPrinted` | internal/discovery/network.go:757-783 | one printed line scans to its route whatever non-keyword tokens are put in |
| `Routes.LinuxRoutesOfConcat` | internal/discovery/network.go:738-789 | parsing distributes over joining texts by a newline |
| `Routes.ParseDarwinRoutes` | internal/discovery/network.go:935-987 | a line yields a route exactly when it has the shape of one and the latest section marker before it is the IPv4 one; order is kept |
| `RouteTables.DarwinIsScan` | internal/discovery/network.go:935-987 | the scanner is a two-state automaton over the lines |
| `RouteTables.DarwinRoundTrip` | internal/discovery/network.go:934-987 | a printed table, with anything else around it, is read back: destination, gateway, flags and interface of every row |
| `Routes.SectionStep` | internal/discovery/network.go:946-955 | what one line does to the section in force |
| `Routes.ParseWindowsRoutes` | internal/discovery/network.go:1014-1068 | a line yields a route exactly between the first active-routes marker and the first later persistent-routes line with fewer than four fields; order is kept |
| `RouteTables.WindowsIsScan` | internal/discovery/network.go:1014-1068 | the scanner is a three-state automaton over the lines |
| `RouteTables.WindowsRoundTrip` | internal/discovery/network.go:1013-1068 | a printed table is read back, with anything at all behind its end: destination, netmask, gateway, interface and metric of every row |
| `RouteTables.ActiveIsMarker` | internal/discovery/network.go:1025-1029 | the line that opens the table |
| `RouteTables.PersistentIsMarker` | internal/discovery/network.go:1045-1051 | the line that ends it |
| `Routes.WindowsRound` | internal/discovery/network.go:1019-1065 | what one line does to the table, to its end and to the routes |
| `Routes.NothingAfterTheEnd` | internal/discovery/network.go:1045-1051 | no line after the end of the table can matter |
| `Routes.ParseProcRoutes` | internal/discovery/network.go:799-855 | the rows after the header, in order, blank and short ones passed over |
| `Routes.ReadProcRow` | internal/discovery/network.go:819-850 | one row: destination with prefix, gateway, metric, interface |
| `Routes.ProcRowRoundTrip` | internal/discovery/network.go:813-850 | a row as the kernel prints it gives back address, prefix length, gateway and metric |
| `RouteTables.KernelRoundTrip` | internal/discovery/network.go:793-856 | the kernel's whole table, printed with its header and tabs, is read back: the zero address as the default route, networks with their prefix length, the zero gateway as none |
| `Headers.MatchingHeaders` | internal/discovery/tshconfig.go:58-89 | in any iteration order, a header has the value of a key naming it in the last matching entry that does, and is absent without one |
| `Headers.WriteHeaders` | internal/discovery/tshconfig.go:77-82 | in some order of the map: every header that a key names gets the value of such a key, all others keep theirs |
| `Headers.MatchingAt` | internal/discovery/tshconfig.go:51-89 | given the iteration orders, which key of that entry it is: the last one in its order that names the header |
| `Headers.PaddedEntry` | internal/discovery/tshconfig.go:63-81 | white space around a pattern or a name does not matter |
| `Headers.OrderMatters` | internal/discovery/tshconfig.go:77-82 | a header is independent of iteration order if and only if the last matching entry naming it gives it one value only |
| `Headers.OrderShows` | internal/discovery/tshconfig.go:77-82 | otherwise two iteration orders give it different values |
| `Headers.HeaderFlag.ParseOne` | internal/config/options.go:130-145 | sets the trimmed header; an error changes nothing |
| `Headers.HeaderRoundTrip` | internal/config/options.go:130-145 | a printed header, with any white space around name and value, parses back to both |
| `Headers.NoHeader` | internal/config/options.go:131-139 | a text without a colon or without a name is no header |
| `Headers.HeaderFlag.SetAll` | internal/config/options.go:123-162 | all arguments are valid and the settings are those of their texts in order, a file counting line by line, or there is an error |
| `Headers.HeaderFlag.Set` | internal/config/options.go:123-128 | an argument that begins with @ names a file of headers, any other is one header |
| `Headers.HeaderFlag.LoadFromFile` | internal/config/options.go:147-162 | every line that is not blank and no comment is a header, in order, or there is an error |
| `Headers.FileRoundTrip` | internal/config/options.go:147-162 | a file with one header a line gives these headers in order |
| `Headers.LineForms` | internal/config/options.go:152-156 | white space around a line does not matter, and comments and blank lines give nothing |
| `Headers.SettingsAt` | internal/config/options.go:130-145 | a header has the value of the command line's last setting of it |
| `Headers.ResolveHeaders` | internal/config/runtime.go:113-127 | command-line headers as they are, every other header from the last matching entry naming it |
| `Headers.HeaderPrecedence` | internal/config/runtime.go:105-127 | over all layers and iteration orders: the last setting on the command line, else the last matching entry naming the header, else none |
| `Headers.FinalOrderMatters` | internal/config/runtime.go:113-127 | over all layers a header is independent of iteration order if and only if the command line sets it or the last matching entry naming it gives it one value only |
| `Headers.FinalIsDetermined` | internal/config/runtime.go:113-127 | when names stay distinct after trimming in every matching entry, the final headers are the same for all iteration orders |
| `Headers.FetchHostCA` | internal/config/runtime.go:193-214 | endpoints are asked trimmed, without blanks, each at most once, in order, until one answers |
| `Headers.CandidatesMeaning` | internal/config/runtime.go:195-204 | every endpoint that is not blank is a candidate, once |
| `Version.ParseVersion` | internal/plan/plan.go:511-519 | major and minor of a version text |
| `Version.AtoiComponent` | internal/plan/plan.go:521-537 | the leading digits in 64-bit arithmetic, 0 for a missing component |
| `Version.ParseOfPrinted` | internal/plan/plan.go:511-537 | a printed version, whatever surrounds it, parses back exactly when both numbers fit 64 bits |
| `Version.ParseOfMajor` | internal/plan/plan.go:511-537 | a major number alone has minor 0 |
| `Version.ParseOfNothing` | internal/plan/plan.go:521-528 | a text without a number is 0.0 |
| `Version.UpgradeIsMonotone` | internal/plan/plan.go:479-497 | a newer version never loses the WebSocket upgrade and never regains a legacy one |
| `Version.BandMatchesSequence` | internal/plan/plan.go:479-509 | only WebSocket attempts exactly in band v18+, the legacy sequence is the tail of the middle one, and band and sequence disagree only on major 15 with a minor below 1 |
| `Version.UpgradePathMeaning` | internal/plan/plan.go:479-497 | by tokens: WebSocket exactly from 15.1 on and then first, both legacy tokens in order exactly before 18, none twice, all at the upgrade endpoint |
| `Version.UpgradePathIsUnique` | internal/plan/plan.go:479-497 | no other path meets this |
| `Version.Base16RoundTrip` | internal/plan/plan.go:70 | decoding the base16 name gives the cluster name's bytes |
| `Version.Base16IsFaithful` | internal/plan/plan.go:454-468 | distinct clusters get distinct auth host names and distinct auth ALPNs, and the ALPN is the fixed prefix and the host name |

## Left out

- The upgrade handshake: the plan carries the sequence, but the engine never sends it.
- Sockets, TLS, X.509 verification, PEM and ASN.1 decoding, SHA-256, DNS, clocks, the host CA and ping requests: unknown functions.
- How `ParseCertInfo` decodes validity, key usages, extensions and object identifiers: the certificate's lists are given as text.
- `filterVPNRoutes`, `uniqueStrings` and the VPN and proxy detection around external commands: easy filters.
- `parseLinuxRoutes` on the output of `route -n`, whose grammar it does not follow.
- The rest of `ResolveRuntime` (profile, cluster information, host and port splitting) and `normalizeHost`: input and output, or library calls.
- How bytes are counted, TLS version names, error texts and log lines.
- Mutexes: the engine probes one target after the other, so nothing runs concurrently with the store.
- Errors of `Run` and `Execute` for a missing dialer, builder or engine.
- HTML export, JSON schema, help text, and the redaction of headers for output: nothing is stated about what is printed.
- Targets.MakeUnique: does not lower-case characters whose lower case is outside ASCII; `Text.LoweringToAscii` shows that this cannot matter to an ASCII key.
- Targets.SplitList: has the same restriction.
- Targets.WantsService: has the same restriction.
- Slices.Clone: gives an array without elements for an empty input, where the program gives nil; nothing can be written to either, and it counts as no memory.
- Headers.FetchHostCA: states which requests are made, not the error that follows when none is answered or the bundle is empty.
- Probe.Engine.ProbeOnce: does not state the texts of failure messages, and does not model saturation of durations, which Go applies to differences of 292 years and more.
- Probe.Engine.ProbeOneTarget: takes targets as values; the engine writes through none of their slices, but a result's target keeps the slices and the header map of the plan's target, which is not captured.
- Routes.TableRoundTrip: is about routes as `ip route` prints them, with device and without netmask or flags.
- Routes.ProcRowRoundTrip: is about netmasks that are contiguous; for others `Netmask.MaskToCIDR` gives 0 and the address stands alone.
- Version.UpgradeIsMonotone: is about which tokens are offered, not their order.
