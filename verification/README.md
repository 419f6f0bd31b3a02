# Hardware telemetry platform: a Dafny model

The project models the hand-written logic of a distributed hardware monitor,
from the kernel driver to the screen, and proves properties of it:

- the IOCTL between CPU drivers and driver client: sizing, in-place fill,
  grow-and-retry (`CpuDriver`, `DriverClient`, `CoreName`);
- counter snapshots turned into load and power (`DeltaMetrics`, `DeltaRuns`),
  and the reply entry by entry as the client reads it (`DriverReadings`);
- the sensor list of a device and the two collectors that fill it
  (`SensorTable`, `DriverSensors`, `AdlMetrics`);
- the queue between workers and publisher, as a class and as interleaved
  threads with mutex and condition variable (`ClientQueue`, `QueueThreads`);
- node ids, the server-side gate, and the publishing client over the server's
  address space, alone and next to other devices (`OpcUaLayout`,
  `AccessControl`, `Publisher`, `PublisherRuns`, `PublisherClient`,
  `SharedServer`);
- the sensor payload codec (`PayloadCodec`);
- the control center's device cache and grid, what is then on the screen, and
  the two pacing loops (`OrderedMap`, `DisplayGrid`, `Screen`, `ControlCenter`,
  `Pacing`).

`Words` holds the fixed widths. `dafny verify dfyconfig.toml` checks everything.

Objects whose methods update fields are classes; each method is proved against
a function of the old state, and the lemmas are about those functions and
about runs of them. What such a function computes is then stated once more
from the outside, by what a reader finds: a value of a reply at its position,
a node of the tree under its id, a field on its line of the screen. What the hardware, the SDKs, the clock and the network
answer is an input, universally quantified.

Where the code falls short of what one might expect, the model follows the
code and proves an input that fails and the exact condition: a size
computation that wraps (`LateOverflowUnreachable`, `SizingOverflow`), a retry
loop without an exit for other errors (`EndsExactly`, `ConstantCountEnds`,
`LaterFailuresNeverEnd`), four-digit core names (`NamesClash`, `FirstFetch`), AMD
core power against a zero baseline (`FirstAmdCorePower`), the null parent the
gate admits before the folder exists (`AdmissionExact`), empty device keys and
keys that end in a field name (`FreshRunCompletes`, `GpuAndGpuName`), and two
devices of one hardware type on one client (`RowsAreLastOfType`,
`SameTypeSharesARow`).

The two drivers have the same handler text and differ in what they collect;
one `Driver` class carries both, selected by its configuration.

## Model

| member | source | states |
|---|---|---|
| CpuDriver.Driver.EvtIoDeviceControl | drivers/windows/CPU/IntelCPUDriver/intel_cpudriver.c:214-304 | exact outcome for every buffer size, processor count and vendor, also where the framework cannot hand over the output buffer; on success the whole reply in core order under a cursor of 16 bits, entry count and byte count; for every refusal what the header holds; and exactly which snapshots were taken, also when the buffer overflows half way |
| CpuDriver.Driver.Collect | drivers/windows/CPU/IntelCPUDriver/intel_cpudriver.c:268-292 | appends never leave the buffer and all succeed exactly when the whole reply fits; each rate is sampled exactly when the entries before its own did fit |
| CpuDriver.Driver.ReadCores | drivers/windows/CPU/IntelCPUDriver/intel_cpudriver.c:268-284 | reachable cores only, in index order; every core snapshot afterwards, also when an append fails |
| CpuDriver.TryAddTelemetryData | drivers/windows/CPU/IntelCPUDriver/intel_cpudriver.c:324-337 | bounds check and write in place; a refusal changes only required_size |
| CpuDriver.Append | drivers/windows/CPU/IntelCPUDriver/intel_cpudriver.c:349-351 | one append and cursor step, the cursor wrapping at 16 bits, extends the collected prefix by one entry |
| CpuDriver.Driver.ReadPerCoreIntelMetrics | drivers/windows/CPU/IntelCPUDriver/intel_cpudriver.c:343-366 | four entries of one core, success exactly when they fit, no other core's snapshot changed |
| CpuDriver.Driver.ReadPerCoreAmdMetrics | drivers/windows/CPU/AMDCPUDriver/amd_cpudriver.c:386-408 | three entries of one core, load before power, success exactly when they fit |
| CpuDriver.Driver.ReadIntelAggregateMetrics | drivers/windows/CPU/IntelCPUDriver/intel_cpudriver.c:372-394 | the aggregates enabled by the features, and both energy snapshots |
| CpuDriver.Driver.ReadAmdAggregateMetrics | drivers/windows/CPU/AMDCPUDriver/amd_cpudriver.c:414-439 | the four AMD aggregates and the package snapshot |
| CpuDriver.Driver.constructor | drivers/windows/CPU/IntelCPUDriver/intel_cpudriver.c:78-96 | core state exists exactly when allocated and, on Intel, MPERF is present; everything starts zeroed and invalid |
| CpuDriver.Driver.RetCoreLoad | drivers/windows/CPU/IntelCPUDriver/intel_cpudriver.c:490-524 | value from the stored pair, then the new pair stored; untouched without MPERF or state |
| CpuDriver.Driver.RetCorePower | drivers/windows/CPU/AMDCPUDriver/amd_cpudriver.c:532-569 | value guarded by the flag load sets, then energy and time stored, the flag left alone |
| CpuDriver.Driver.RetPackagePower | drivers/windows/CPU/IntelCPUDriver/intel_cpudriver.c:585-608 | value from the previous package sample, which this one replaces; untouched before Zen |
| CpuDriver.Driver.RetCoreDomainPower | drivers/windows/CPU/IntelCPUDriver/intel_cpudriver.c:610-633 | value from the previous core-domain sample, which this one replaces |
| CpuDriver.ReplyCount | drivers/windows/CPU/IntelCPUDriver/intel_cpudriver.c:234-236 | entry count is per-core metrics times reachable processors plus enabled aggregates, never above the announced count |
| CpuDriver.CoreOrder | drivers/windows/CPU/IntelCPUDriver/intel_cpudriver.c:272-284 | the entries of a core lie right after those of the reachable cores before it |
| CpuDriver.AnnouncedSizeSuffices | drivers/windows/CPU/IntelCPUDriver/intel_cpudriver.c:234-236 | a buffer of the announced size takes every append of any count up to the announced one if and only if the sizing does not overflow 32 bits or wraps to room for 65536 entries |
| CpuDriver.LateOverflowUnreachable | drivers/windows/CPU/IntelCPUDriver/intel_cpudriver.c:253-298 | the late overflow branch is unreachable for every IOCTL of a processor count, every driver state and every buffer that passed the size check, if and only if that condition holds |
| CpuDriver.AllSampled | drivers/windows/CPU/IntelCPUDriver/intel_cpudriver.c:286-303 | a reply that fits leaves every reachable core and both energy domains with this sample |
| CpuDriver.WrittenTail | drivers/windows/CPU/IntelCPUDriver/intel_cpudriver.c:335-351 | the entries entry_count makes visible are the newest ones, and all of them below 65536 |
| CpuDriver.SizingOverflow | drivers/windows/CPU/IntelCPUDriver/intel_cpudriver.c:234-298 | 24,403,223 processors: the size wraps to 96, and whatever they answer a buffer of 96 bytes passes the check and ends in the late overflow, which asks for 364; and a count whose overflow does no harm |
| DriverClient.RunDriver | System_Info/driver_client/DriverClient.cpp:51-143 | the loop is ClientRun over the replies the driver had ready on entry; for all processor counts without 32-bit overflow, and whichever requests fail in between as long as they do not fail forever, it terminates: with what the driver wrote for the last call, or empty-handed when the first request fails or memory runs out |
| DriverClient.Call | System_Info/driver_client/DriverClient.cpp:68-75 | one call as such a run meets it: refused by the system, failing in the handler, refused for its size, or answered |
| DriverClient.DeviceIoControl | System_Info/driver_client/DriverClient.cpp:68-75 | one call for any size, vendor and count: the answer that of the driver, its snapshots untouched unless it collects |
| DriverClient.RefusalGrows | System_Info/driver_client/DriverClient.cpp:106-140 | each refused call strictly raises the buffer size and at least doubles it from the second on |
| DriverClient.HandshakeTerminates | System_Info/driver_client/DriverClient.cpp:67-142 | logarithmic bound on the number of calls when no request fails |
| DriverClient.HandshakeEnds | System_Info/driver_client/DriverClient.cpp:67-142 | every bounded run whose failures do not go on forever ends, with the reply of its last call or where memory ran out |
| DriverClient.ConstantCountTakesTwoCalls | System_Info/driver_client/DriverClient.cpp:67-104 | constant count, no failure: the first call learns the size, the second returns |
| DriverClient.EndsExactly | System_Info/driver_client/DriverClient.cpp:67-142 | whatever the calls meet, system errors included: the loop has ended after n calls if and only if one of them was accepted, or found no memory after a size error, or was the first and failed otherwise |
| DriverClient.ConstantCountEnds | System_Info/driver_client/DriverClient.cpp:109-140 | constant count, no overflow, memory found: the loop ends if and only if the first request fails or some later one does not |
| DriverClient.LaterFailuresNeverEnd | System_Info/driver_client/DriverClient.cpp:128-140 | the run that fails: once the size is learnt every request fails, and after any number of calls the client is calling with the same buffer |
| DriverClient.EightProcessorsNeverEnd | System_Info/driver_client/DriverClient.cpp:128-140 | that run at eight Intel processors: called forever with a buffer of 1552 bytes |
| DriverClient.WorldOf | System_Info/driver_client/DriverClient.cpp:51-143 | any requests, replies, system errors and memory make a run of the kind these results are about |
| CoreName.BuildCoreName | drivers/windows/CPU/IntelCPUDriver/intel_cpudriver.c:400-424 | in bounds for every size and index: the name cut to the buffer, a NUL, the rest untouched |
| CoreName.CutTextReads | drivers/windows/CPU/IntelCPUDriver/intel_cpudriver.c:400-424 | whatever the size of the buffer, what its reader finds is the name, cut to leave room for the NUL |
| CoreName.PrintDigits | drivers/windows/CPU/IntelCPUDriver/intel_cpudriver.c:407-414 | the four-digit scratch array holds the low digits, least significant first |
| CoreName.NameIsDecimal | drivers/windows/CPU/IntelCPUDriver/intel_cpudriver.c:400-424 | the name reads back to the index, and is "Core ", the decimal numeral and the suffix, exactly below 10000 |
| CoreName.NamesClash | drivers/windows/CPU/IntelCPUDriver/intel_cpudriver.c:407-421 | two names are equal exactly for equal suffixes and equal kept digits |
| DeltaMetrics.LoadExact | drivers/windows/CPU/IntelCPUDriver/intel_cpudriver.c:510-516 | load is the exact floor on unbounded counters whose MPERF advances no faster than the TSC |
| DeltaMetrics.EnergyDeltaIsModular | drivers/windows/CPU/IntelCPUDriver/intel_cpudriver.c:565-571 | the wrap branch is subtraction modulo 2^32 without intermediate overflow |
| DeltaMetrics.PowerErrorBound | drivers/windows/CPU/IntelCPUDriver/intel_cpudriver.c:573-582 | the reported power never exceeds the true one and is short of it by less than 1000/time_ms + 1 mW, if and only if the quotient is below 2^32 |
| DeltaMetrics.EnergyConserved | drivers/windows/CPU/IntelCPUDriver/intel_cpudriver.c:565-571 | over any run of a monotone counter the deltas sum to last minus first if and only if every step is below 2^32 |
| DeltaMetrics.MilliJouleLoss | drivers/windows/CPU/IntelCPUDriver/intel_cpudriver.c:579-581 | the millijoule floors lose less than one millijoule per interval over any run |
| DeltaMetrics.MilliJoulesConserved | drivers/windows/CPU/IntelCPUDriver/intel_cpudriver.c:565-581 | the floored millijoules of a run account for the counter's advance up to that loss |
| DeltaRuns.Serve | drivers/windows/CPU/IntelCPUDriver/intel_cpudriver.c:214-304 | a driver just loaded, given any sequence of requests, refused and cut-short ones included: its snapshots and its replies, in order |
| DeltaRuns.RepliesAt | drivers/windows/CPU/IntelCPUDriver/intel_cpudriver.c:253-303 | the i-th reply is made on the snapshots that the requests before it left, and given exactly when it fits |
| DeltaRuns.CompletedRuns | drivers/windows/CPU/IntelCPUDriver/intel_cpudriver.c:253-303 | where no sizing wraps harmfully nothing is cut short: the snapshots are those of the completed IOCTLs, and a request gets its whole reply or is refused |
| DeltaRuns.CoreMemory | drivers/windows/CPU/AMDCPUDriver/amd_cpudriver.c:512-566 | after any sequence of IOCTLs a core's snapshot is made of its last sample alone |
| DeltaRuns.LoadOfLastTwo | drivers/windows/CPU/IntelCPUDriver/intel_cpudriver.c:508-521 | the load entry of a core in any reply is 0 on its first sample and then compares its last two, and is at most 100 |
| DeltaRuns.PackagePowerOfLastTwo | drivers/windows/CPU/IntelCPUDriver/intel_cpudriver.c:593-605 | the package power entry of any reply is 0 on the first IOCTL and then compares the last two |
| DeltaRuns.CoreDomainPowerOfLastTwo | drivers/windows/CPU/IntelCPUDriver/intel_cpudriver.c:618-630 | the same for the core domain, in the last entry |
| DeltaRuns.PackageEnergyAccountedFor | drivers/windows/CPU/IntelCPUDriver/intel_cpudriver.c:593-605 | the steps behind package power account for the counter over any run, exactly when no two IOCTLs are 2^32 units apart |
| DeltaRuns.AmdValidMeansSampled | drivers/windows/CPU/AMDCPUDriver/amd_cpudriver.c:523-566 | between IOCTLs the valid flag shared by load and power stands for a stored energy sample on Zen |
| DeltaRuns.AmdCorePower | drivers/windows/CPU/AMDCPUDriver/amd_cpudriver.c:544-566 | the power entry of a core in any reply, with the zero baseline of the first sample and 0 without MPERF |
| DeltaRuns.FirstAmdCorePower | drivers/windows/CPU/AMDCPUDriver/amd_cpudriver.c:548-563 | a core's first power value is 0 if and only if power is not measured or the energy since the counter's start comes to no milliwatts over the time since boot |
| DeltaRuns.FirstAmdCorePowerIsNotZero | drivers/windows/CPU/AMDCPUDriver/amd_cpudriver.c:547-563 | a first sample whose core power is 5000 mW |
| DriverReadings.OutcomeExactly | drivers/windows/CPU/IntelCPUDriver/intel_cpudriver.c:214-304 | each way to complete a request, by its own condition on its kind, vendor, buffer and length |
| DriverReadings.AnnouncedBytes | drivers/windows/CPU/IntelCPUDriver/intel_cpudriver.c:234-236 | a refused caller is told 12 bytes plus 44 for each of 4 (AMD 3) entries a processor and 3 (AMD 4) aggregates, wherever that has 32 bits |
| DriverReadings.IntelCoreReads | drivers/windows/CPU/IntelCPUDriver/intel_cpudriver.c:343-366 | each reachable core has its temperature, VID and clock, as the hardware answered them, and its load, at known positions, each under its own name, type, unit and core id |
| DriverReadings.AmdCoreReads | drivers/windows/CPU/AMDCPUDriver/amd_cpudriver.c:386-408 | each reachable core has its clock, load and power likewise |
| DriverReadings.IntelPackageReads | drivers/windows/CPU/IntelCPUDriver/intel_cpudriver.c:372-394 | after the cores the package temperature and the two powers, as far as the processor has them, and nothing else |
| DriverReadings.AmdPackageReads | drivers/windows/CPU/AMDCPUDriver/amd_cpudriver.c:414-439 | after the cores the die temperature, core voltage, SoC voltage and package power, and nothing else |
| DriverReadings.LoadReads | drivers/windows/CPU/IntelCPUDriver/intel_cpudriver.c:508-521 | the load entry of any reply, for unbounded counters: MPERF cycles in percent of TSC cycles, rounded down, at most 100, 0 where there is nothing to compare; a quotient of 2^32 or more loses its high bits first |
| DriverReadings.PackagePowerReads | drivers/windows/CPU/IntelCPUDriver/intel_cpudriver.c:573-605 | the package power entry of any reply: 0 on the first collection and where it is not measured, else energy over time between the last two for any unbounded counter behind the register, never too high and short by less than 1 + 1000/ms mW if and only if the quotient is below 2^32 |
| DriverReadings.CoreDomainPowerReads | drivers/windows/CPU/IntelCPUDriver/intel_cpudriver.c:573-630 | the same for the core domain, in the last entry |
| DriverReadings.AmdCorePowerReads | drivers/windows/CPU/AMDCPUDriver/amd_cpudriver.c:544-566 | the same for each AMD core, its first reading against an empty counter at time zero |
| DriverReadings.SampledAsFarAsItFits | drivers/windows/CPU/AMDCPUDriver/amd_cpudriver.c:386-408 | when a collection is cut short, the counters behind a load or core power entry are stored if and only if all entries before it fit |
| DriverReadings.PackageSampledAsFarAsItFits | drivers/windows/CPU/IntelCPUDriver/intel_cpudriver.c:372-394 | the same for the two energy domains |
| SensorTable.HardwareDevice.AddSensor | System_Info/hardware/HardwareDevice.h:55-63 | the scan is an upsert on name and type |
| SensorTable.TableRefinesMap | System_Info/hardware/HardwareDevice.h:55-63 | after any calls keys are unique, in first-insertion order, with last written values |
| SensorTable.HardwareDevice.AddEntry | System_Info/hardware/CPU/CPULiveMetrics.cpp:14-40 | one driver entry: scaling by unit, dispatch on type, unknown types ignored |
| SensorTable.HardwareDevice.FetchMetrics | System_Info/hardware/CPU/CPULiveMetrics.cpp:12-42 | the table after a fetch is the upsert of all scaled entries in order |
| DriverReadings.EntryBecomes | System_Info/hardware/CPU/CPULiveMetrics.cpp:14-40 | one driver entry: its name under the sensor type of its code, milliwatts and millivolts divided by 1000, every other sensor as it was; unknown codes change nothing |
| DriverSensors.FirstFetch | System_Info/hardware/CPU/CPULiveMetrics.cpp:12-42 | the first fetch of what the client is given leaves one sensor per entry if and only if no two reachable cores print the same name, unless the 16-bit entry count hides the first one's entries |
| DriverSensors.AllVisible | System_Info/hardware/CPU/CPULiveMetrics.cpp:12-42 | below 65536 entries nothing is hidden, and the condition is that no two reachable cores print the same name |
| DriverSensors.ClashBound | drivers/windows/CPU/IntelCPUDriver/intel_cpudriver.c:407-415 | that holds for up to 11000 cores, and fails from 11001 on when all are reachable |
| DriverReadings.FetchShows | System_Info/hardware/CPU/CPULiveMetrics.cpp:12-42 | where no two reachable cores print the same name, a fetch of any reply onto any table leaves every entry visible under its own name and type, in base units |
| DriverReadings.IntelFetch | System_Info/hardware/CPU/CPULiveMetrics.cpp:12-42 | end to end: each core's temperature, VID and clock as the hardware answered them, found under their names |
| DriverReadings.AmdFetch | System_Info/hardware/CPU/CPULiveMetrics.cpp:12-42 | the same for the die temperature and the two voltages |
| AdlMetrics.FetchAdlMetrics | System_Info/hardware/GPU/AMD/AMDLiveGPUMetrics.cpp:66-269 | the waterfall is the upsert of the readings that pass their range, in level order |
| AdlMetrics.AddInRange | System_Info/hardware/GPU/AMD/AMDLiveGPUMetrics.cpp:74-80 | a reading outside its type's range leaves the table as it was |
| AdlMetrics.WaterfallKeepsLatest | System_Info/hardware/GPU/AMD/AMDLiveGPUMetrics.cpp:66-269 | every sensor shows the reading of the highest level that passed, else its previous value |
| AdlMetrics.TemperatureKept | System_Info/hardware/GPU/AMD/AMDLiveGPUMetrics.cpp:72-157 | the core temperature is the last logged one above 0 and below 150, else that of overdrive N, 6 or 5, in this order, given in thousandths of a degree, else what it was |
| AdlMetrics.CoreClockKept | System_Info/hardware/GPU/AMD/AMDLiveGPUMetrics.cpp:81-171 | the same for the core clock, given in hundredths, above 0 and below 10000 |
| AdlMetrics.MemoryClockKept | System_Info/hardware/GPU/AMD/AMDLiveGPUMetrics.cpp:81-211 | the same for the memory clock |
| AdlMetrics.UtilizationKept | System_Info/hardware/GPU/AMD/AMDLiveGPUMetrics.cpp:81-171 | the same for utilization, 0 to 100 |
| AdlMetrics.FanKept | System_Info/hardware/GPU/AMD/AMDLiveGPUMetrics.cpp:96-233 | the same for the fan, from 0 and below 20000, that of overdrive 6 only if in rounds per minute |
| AdlMetrics.PowerKept | System_Info/hardware/GPU/AMD/AMDLiveGPUMetrics.cpp:130-137 | the same for the power draw of overdrive 6, from 0 and below 1000 |
| AdlMetrics.OthersAreLogged | System_Info/hardware/GPU/AMD/AMDLiveGPUMetrics.cpp:205-258 | every other sensor shows its last logged reading inside its type's range, else what it was |
| AdlMetrics.EveryFetchInRange | System_Info/hardware/GPU/AMD/AMDLiveGPUMetrics.cpp:47-52 | over any number of fetches every sensor stays inside its type's range, under a unique key |
| ClientQueue.ClientQueue.Push | OPC_UA/ClientQueue.cpp:5-14 | unless shutting down the item is the last of the queue, else the queue stays; and whether a notification follows |
| ClientQueue.ClientQueue.Drain | OPC_UA/ClientQueue.cpp:16-27 | the pop loop hands over the whole queue in order; empty only after shutdown |
| ClientQueue.ClientQueue.Shutdown | OPC_UA/ClientQueue.cpp:29-35 | sets the flag and keeps the queue |
| QueueThreads.StepWakeup | OPC_UA/ClientQueue.cpp:13-34 | no lost wakeup is kept by every step of every thread |
| QueueThreads.EveryRunIsSafe | OPC_UA/ClientQueue.cpp:5-35 | in every interleaving: mutual exclusion, batches then queue equal the accepted pushes in order, empty batches only after shutdown, no lost wakeup |
| QueueThreads.AcceptedIsPushed | OPC_UA/ClientQueue.cpp:5-14 | in every interleaving the accepted items are those of the push sections that came before the shutdown, each what its caller passed, in order |
| QueueThreads.PushedComesOut | OPC_UA/ClientQueue.cpp:5-35 | so what the consumers got, what one is popping and what is queued are together the items pushed in time, in order: nothing lost, doubled or swapped |
| QueueThreads.NothingAcceptedAfterShutdown | OPC_UA/ClientQueue.cpp:8-10 | after shutdown nothing more is accepted |
| QueueThreads.InternalRunsAreBounded | OPC_UA/ClientQueue.cpp:5-35 | left alone the threads stop within a computed number of steps under every scheduling |
| QueueThreads.RunToRest | OPC_UA/ClientQueue.cpp:5-35 | from every state some schedule brings all threads to rest |
| QueueThreads.QuiescentMeansServed | OPC_UA/ClientQueue.cpp:16-18 | where they stop, a consumer waits only on an empty queue that is not shutting down |
| QueueThreads.EveryConsumerIsServed | OPC_UA/ClientQueue.cpp:5-35 | the same end to end, from the initial state through any calls and spurious wakeups |
| QueueThreads.DrainTakesAll | OPC_UA/ClientQueue.cpp:20-26 | in every interleaving the next batch handed over after a consumer got through is its own and all that was queued then, in order |
| OpcUaLayout.SharedIds | OPC_UA/AccessControlCustom.cpp:231-248 | two devices can own a common id if and only if one name is the other or a dotted prefix of it |
| OpcUaLayout.OwnsExactly | OPC_UA/AccessControlCustom.cpp:231-248 | a device owns the string id that is its name and those of its name, a dot and something more, in any namespace, and no others |
| OpcUaLayout.LayoutBelongs | OPC_UA/shared_opc_ua_layout.h:14-26 | what the layout builds for a device belongs to it; an object id exactly for a non-empty key |
| OpcUaLayout.IdsDistinct | OPC_UA/shared_opc_ua_layout.h:14-26 | all ids of a device are distinct, except that an object clashes with a field exactly when its key is the other key, a dot and the field name |
| OpcUaLayout.DotFreeKeysAreClashFree | OPC_UA/shared_opc_ua_layout.h:19-26 | keys without dots never clash |
| AccessControl.AccessControl.ActivateSession | OPC_UA/AccessControlCustom.cpp:27-66 | good for a trusted certificate, a code of its own for each other token, which leaves the session rejected |
| AccessControl.AccessControl.RejectSession | OPC_UA/AccessControlCustom.cpp:269-281 | every right and the remembered folder are gone |
| AccessControl.AccessControl.AllowAddNode | OPC_UA/AccessControlCustom.cpp:103-140 | decision and remembered folder for every session table |
| AccessControl.AccessControl.AllowAddReference | OPC_UA/AccessControlCustom.cpp:142-185 | decision for every source, target and reference kind |
| AccessControl.AccessControl.GetUserAccessLevel | OPC_UA/AccessControlCustom.cpp:81-85 | a query for an unknown session inserts attributes without rights |
| AccessControl.EveryStateIsSound | OPC_UA/AccessControlCustom.cpp:57-63 | in every reachable state write access and browsing mean an accepted activation, and the folder is owned, or null exactly while none was admitted since that activation |
| AccessControl.AdmissionExact | OPC_UA/AccessControlCustom.cpp:103-140 | admission after any events, exactly, in terms of the events: activation, ownership, and the null parent as long as no folder was admitted |
| AccessControl.ReferenceExact | OPC_UA/AccessControlCustom.cpp:142-185 | references after any events, exactly, in terms of the events: activation, an own source or null as long as no folder was admitted, and a target in namespace 0 or, unless it is a type definition, the clients folder or an own node |
| AccessControl.SubtreesAreIsolated | OPC_UA/AccessControlCustom.cpp:121-137 | sessions of unrelated devices are never given the same id, in whichever states they ask |
| AccessControl.ReferencesStayInside | OPC_UA/AccessControlCustom.cpp:155-182 | admitted references start at own nodes and never end in an unrelated device's |
| PublisherClient.Server.TryBrowseChild | OPC_UA/utils.cpp:81-94 | the named child, none when there is none, an error when the parent is missing |
| PublisherClient.Server.AddNode | OPC_UA/AccessControlCustom.cpp:103-140 | a node appears exactly when the gate admits it, its id is free and its parent exists; each created node is logged once |
| PublisherClient.Server.EnsureChild | OPC_UA/utils.cpp:106-112 | on any tree: a child of that name if there is one, else the requested node exactly when the gate lets it in and its id is free |
| PublisherClient.SystemInfoClient.AddNodes | System_Info/SystemInfoClient.cpp:28-49 | the client folder is found or created, or the call refused |
| PublisherClient.SystemInfoClient.EnsureField | OPC_UA/utils.cpp:117-137 | one field below its object, for any key: found, created or refused |
| PublisherClient.SystemInfoClient.EnsureSnapshotNode | OPC_UA/utils.cpp:139-178 | all five nodes with the layout's ids for any key, on a fresh or existing tree, up to the first refusal, whose predecessors stay |
| PublisherClient.SystemInfoClient.NodesFor | System_Info/SystemInfoClient.cpp:65-74 | the cached ids of a key, ensured and cached first when missing; never cached when refused |
| PublisherClient.SystemInfoClient.WriteSnapshot | OPC_UA/utils.cpp:180-190 | the four field values and nothing else |
| PublisherClient.SystemInfoClient.SendTelemetryPayload | System_Info/SystemInfoClient.cpp:51-84 | publishes the drained snapshots in order through the cache, which keeps naming real nodes, up to the first refused call, for any keys |
| PublisherClient.RunClient | System_Info/System_Info.cpp:72-86 | a whole run over any earlier tree, cache empty at the start, each node created once; from a fresh tree it goes through if and only if no key is empty and no two keys clash, and then every key's last snapshot reads back by id and browse name |
| PublisherRuns.FreshRunCompletes | System_Info/SystemInfoClient.cpp:64-78 | from a fresh tree a run publishes everything if and only if no drained key is empty and none is another one, a dot and a field name |
| PublisherRuns.RunPublishesAll | System_Info/SystemInfoClient.cpp:28-84 | on a tree with these subtrees or none everything goes through, and the folder and every key's last snapshot read back by id and browse name, restarts included |
| PublisherRuns.FreshTreeOk | OPC_UA/utils.cpp:139-178 | a tree with nothing of the device takes a set of keys if and only if they do not clash |
| PublisherRuns.GpuAndGpuName | OPC_UA/utils.cpp:150-159 | keys "GPU" and "GPU.name" on a fresh tree: either order stops the client at the second, one leaves an object without fields |
| PublisherRuns.SubtreesNeedClashFreeKeys | OPC_UA/utils.cpp:131-136 | no tree holds the subtrees of clashing keys |
| SharedServer.EveryDeviceShowsItsLast | System_Info/SystemInfoClient.cpp:51-84 | several devices on one server, starts, restarts and drains interleaved in any order: unless one name is a dotted prefix of another, every key of every device shows its own last snapshot |
| SharedServer.NothingIsRefused | System_Info/SystemInfoClient.cpp:28-84 | the same with a cache per client and every call subject to the gate: no call is refused, and the tree is that of publishing every snapshot in turn |
| SharedServer.EveryClientShowsItsLast | System_Info/SystemInfoClient.cpp:51-84 | from the empty tree, whatever the interleaving of the clients, each has its folder, and what it sent last under a key reads back by id and browse name |
| SharedServer.EmptyTreeForAll | System_Info/SystemInfoClient.cpp:28-49 | the server's empty tree is a start for any devices with keys that do not clash |
| SharedServer.OtherDeviceKept | OPC_UA/AccessControlCustom.cpp:231-248 | a step of an unrelated device leaves a device's places and shown values alone |
| Publisher.PlacesDistinct | OPC_UA/shared_opc_ua_layout.h:14-26 | different places have different ids and different browse paths |
| Publisher.EveryKeyShowsItsLast | System_Info/SystemInfoClient.cpp:64-78 | after any drained sequence every key's nodes hold the last snapshot with that key |
| Publisher.EveryKeyReadsBack | OPC_UA/utils.cpp:180-190 | read back by id and browse name: after any drained sequence every key has its last snapshot's name, vendor, hardware type and sensors, each under its own id, and no other node goes by those names |
| Publisher.OthersUntouched | System_Info/SystemInfoClient.cpp:64-78 | nodes outside the device's ownership are unchanged and none is lost |
| PayloadCodec.BuildTelemetryStore | OPC_UA/utils.cpp:39-71 | one decoded extension object per sensor, in order |
| PayloadCodec.ExtractSensor | OPC_UA/utils.h:139-153 | the padding walk reads the structure lying there, whatever offsets the compiler chose |
| PayloadCodec.DecodeSensorDtos | OPC_UA/utils.h:119-185 | typed arrays at the type's stride, extension objects by encoding, everything else skipped |
| PayloadCodec.RoundTrip | OPC_UA/utils.h:119-185 | decoding what was built returns names, values and units in order for every layout |
| PayloadCodec.StoreAndDecode | OPC_UA/utils.h:119-185 | building and decoding one after the other gives back names, values and units, for every layout |
| PayloadCodec.TypedArrayRoundTrip | OPC_UA/utils.h:155-161 | an unwrapped array decodes structure by structure, each member its own, null strings as empty |
| PayloadCodec.DecodableSubsequence | OPC_UA/utils.h:163-184 | on mixed encodings the result is the order-preserving subsequence of the decodable entries |
| PayloadCodec.MixedRoundTrip | OPC_UA/utils.h:163-184 | however the structures were encoded, decoded objects with or without ownership or bytes that decode, all members come back in order; null objects, other encodings and bytes that do not decode give nothing |
| OrderedMap.PutLaws | control_center/DisplayGrid.cpp:14-18 | insertion keeps the key order and has the map's update law |
| OrderedMap.LessIsLexicographic | control_center/DisplayGrid.h:18 | the order of the keys is lexicographic |
| DisplayGrid.UpdateLaws | control_center/DisplayGrid.cpp:14-18 | an update replaces the row of its client and device and no other |
| ControlCenter.ControlCenterClient.Discover | control_center/ControlCenterClient.cpp:50-83 | a device is cached when first found, and stays as it was then |
| ControlCenter.ControlCenterClient.HandleSensorUpdate | control_center/ControlCenterClient.cpp:99-136 | the row of a cached device, title and one field per sensor, filed under its folder and hardware type |
| ControlCenter.RowsAreLastOfType | control_center/ControlCenterClient.cpp:99-136 | after any run of discoveries, updates and ticks the grid holds for every client and hardware type the last row of any device of that type, and no other row |
| ControlCenter.SameTypeSharesARow | control_center/ControlCenterClient.cpp:121-136 | two devices of one client, updated one after the other in any state, both keep their row exactly when their hardware types differ |
| ControlCenter.LastOfTypeIsOnScreen | control_center/ControlCenterClient.cpp:99-136 | end to end: after any run the frame shows, in the column of each client, the last update of each of its hardware types: a title, then one line per sensor with name, value and unit |
| DisplayGrid.BuildFrame | control_center/DisplayGrid.cpp:42-121 | the printed text is the frame of the rows |
| DisplayGrid.BuildColumn | control_center/DisplayGrid.cpp:55-69 | the devices of a client one below the other, one blank field between two |
| DisplayGrid.ColumnWidth | control_center/DisplayGrid.cpp:73-79 | widest label and value or name, padding added, minimum enforced |
| DisplayGrid.AppendHeader | control_center/DisplayGrid.cpp:88-93 | the padded names, without underflow of the padding |
| DisplayGrid.AppendDashes | control_center/DisplayGrid.cpp:95-100 | one run of dashes per column and the padding |
| DisplayGrid.AppendRow | control_center/DisplayGrid.cpp:104-117 | the padded cells of one row |
| DisplayGrid.CellsFit | control_center/DisplayGrid.cpp:71-79 | every cell and name leaves the padding free, so the one-space fallback is never taken |
| DisplayGrid.LineRoundTrip | control_center/DisplayGrid.cpp:88-118 | every line is as long as the widths together and splits at the column offsets into the padded cells |
| DisplayGrid.FrameRoundTrip | control_center/DisplayGrid.cpp:86-120 | for newline-free text the frame has exactly 2 + max_rows lines, the ones it was built of |
| Screen.EveryFieldIsShown | control_center/DisplayGrid.cpp:42-121 | told from the rows alone: every field of every client stands on its own line in its own column, its label or label and value followed by blanks, names and rules above; all else is blank, and there are as many lines as the longest column needs |
| Screen.WidthIsLeast | control_center/DisplayGrid.cpp:71-79 | a column is as narrow as it can be: the least width of 14 or more with three characters free beside the name and every label and value |
| DisplayGrid.DisplayGrid.Update | control_center/DisplayGrid.cpp:14-18 | rows upserted, dirty set |
| DisplayGrid.DisplayGrid.RenderIfDirty | control_center/DisplayGrid.cpp:22-37 | renders the current frame and clears the flag exactly when dirty |
| DisplayGrid.EveryRunIsCoherent | control_center/DisplayGrid.cpp:14-45 | in every interleaving a clean grid has shown its current rows, and the waiting text is never rendered |
| DisplayGrid.RendersExactly | control_center/DisplayGrid.cpp:14-37 | a render hands over one frame exactly when an update came right before it, that of the rows as they are then; updates hand over none |
| Pacing.Run | System_Info/hardware/pipeline_workers/IHardwarePipelineWorker.cpp:10-26 | the deadlines of the loop for every clock |
| Pacing.DeadlineClosedForm | System_Info/hardware/pipeline_workers/IHardwarePipelineWorker.cpp:13-24 | a deadline is the latest of t0 plus its periods and each earlier end plus the periods since |
| Pacing.PollsAreSpaced | System_Info/hardware/pipeline_workers/IHardwarePipelineWorker.cpp:13-24 | the k-th poll starts no earlier than t0 + k periods, and no burst follows an overrun |
| Pacing.ExactWithoutOverrun | System_Info/hardware/pipeline_workers/IHardwarePipelineWorker.cpp:20-24 | the schedule is exact if and only if no execution ends past its slot |
| Pacing.MainLoop | control_center/main.cpp:87-107 | tick and render deadlines and the renders made, for every clock |
| Pacing.RendersAreSpaced | control_center/main.cpp:95-101 | the k-th render happens no earlier than t0 + k intervals, and the next deadline lies in the interval after the last one |
| Pacing.RendersDoNotDrift | control_center/main.cpp:95-101 | the deadline is t0 plus one interval per render if and only if each render came within its own interval |
| Pacing.NoRenderLeftOut | control_center/main.cpp:95-101 | each pass renders at its own reading or not at all, the first one at or after t0, and from then on the last render is always less than an interval old |

## Left out

- Temperature, voltage and clock conversions and GENMASK field extraction: small finite domains; their results are inputs of the model.
- MSR, SMN, CPUID and affinity calls, KMDF lifecycle and device creation: kernel calls; what they return is an input.
- DriverClient.RunDriver: assumes an open handle, the vendor the client opened the driver for (DriverClient.cpp:5-20 detects it as the driver does), sizes whose double does not overflow 32 bits, and requests that do not fail forever; where they do, the loop does not end (ConstantCountEnds).
- ClientQueue.ClientQueue.Push: locking and notification are in QueueThreads, where a critical section of push or shutdown is one step.
- PublisherClient.SystemInfoClient.SendTelemetryPayload: blocking in the queue is QueueThreads; the drained batch is an argument. Written values are snapshots; their encoding is PayloadCodec.
- PublisherClient.Server.TryBrowseChild: of the errors other than no match only a missing parent occurs; failing connections are not modelled.
- PublisherClient.RunClient: assumes a tree in which browsing finds nodes with the layout's ids, as every tree is that only this program wrote (LaidOut), and a device not named like the clients folder.
- SharedServer.NothingIsRefused: interleaves whole snapshots, not single service calls.
- PublisherClient.Server.AddNode: reference checks and browse filtering of the server library are not modelled; browsing is taken as allowed, as it is for an activated session.
- Access decisions that are constants (execute, delete, history, transfer) and the rights mask.
- Certificate matching: a token carries the device name found, or none.
- PayloadCodec.ExtractSensor: memory is typed cells at byte offsets, not bytes; the SDK's structure copy and binary decoder are taken as given.
- AdlMetrics.FetchAdlMetrics: the PMLog resource bracketing and the switch from sensor identifiers to names; the supported readings come with name and type.
- Floating point: sensor values are reals; rounding of single precision is not modelled.
- NVAPI, ADLX, DXGI and WMI collectors, number formatting, browsing and subscriptions of the control center, logging, ANSI output, signal handling and security configuration: library plumbing.
- OPC_UA/client.cpp: a deprecated duplicate of the publishing client.
