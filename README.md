# Puppet file mode and owner properties, and the agent's run

This project models three pieces of an early Puppet, in Dafny:

- the `mode` property of the `file` type (`Puppet::State::PFileMode`):
  - desired modes are octal strings, normalized to Integers;
  - on a directory, every read bit of a desired mode brings its execute bit;
  - `is` is read from the stat with the 07777 mask;
  - `sync` applies the mode with `File.chmod`.
- the `owner` property (`Puppet::State::PFileUID`):
  - desired owners are user names or uids, resolved against the user directory;
  - `sync` applies the owner with `File.chown`, and only as root;
  - a non-root process, and each missing user, get one notice per process. The state for this is shared by every owner property (the class variables `@@notifieduid` and `@@usermissing`).
- the agent's configuration client (`Puppet::Configurer`). One `run` does four things:
  - it prepares: the state file, plugin downloads and the prerun hook;
  - it takes a catalog, given by the caller, fetched fresh, or taken from the cache;
  - it applies the catalog;
  - in its `ensure`, on every way out, it clears the HTTP connections and runs the postrun hook; if that passes, it closes the report's log destination and sends the report.

## Modules

| module | file | contents |
|---|---|---|
| `RubyValues` | `ruby_values.dfy` | Ruby values and exception classes |
| `RubyText` | `ruby_text.dfy` | Ruby's line-anchored regular expressions, `Kernel#Integer`, `String#to_i` and `"%o"` |
| `PFile` | `pfile.dfy` | what both properties share: the stat, the file environment and the result of `sync` |
| `FileMode` | `mode.dfy` | the mode property |
| `FileOwner` | `uid.dfy` | the owner property |
| `Configurer` | `configurer.dfy` | the agent's client |

## How the model is built

**Property objects are classes.** The property objects (`FileMode.ModeProperty`, `FileOwner.OwnerProperty`) and the client (`Configurer.Client`) are classes. Their instance variables are fields, and their methods update those fields in place. Each method is proved equal to a specification function of the old state. The properties' lemmas are stated about those functions. The owner properties' class variables are one shared `FileOwner.OwnerRegistry` object, and `OwnerProperty.Sync` modifies it.

**The world is an input.** Each operation takes as parameters:
- the file system (a `FileEnv`: the stat, or none, and whether the path is a directory);
- the user directory;
- whether the process is root;
- whether the platform's chmod or chown accepts the value;
- what each collaborator of the client does (a `Collaborators` record).

**Calls and messages are traced.** The client records every call to a collaborator and every message it logs in a `trace`. Its lemmas are about that trace.

**Exceptions are values.** An exception is a `Result`/`Outcome` value of type `Error`. That type distinguishes the StandardError classes from `SystemExit`, `NoMemoryError` and other non-standard exceptions, because the rescue clauses of the source do.

**Some names differ from the source.** The source's `is` is called `actual`, and its `fresh` is called `remote`: both are Dafny keywords. Octal literals of the source are written in hexadecimal, with the octal value beside them.

### Where the code does less than its names and comments suggest

The model follows the code in each of these cases.

- **`run` and `clear`.** `clear` (`configurer.rb:38-41`) drops the catalog, but `Configurer#run` never calls it and never sets `@catalog` (`configurer.rb:153-194`). `Configurer.Client.Run` leaves `catalog` unchanged.
- **The `ensure` of `run`.** The `ensure` is where the connections are cleared and the report is sent, on every way out of the body (`configurer.rb:185-194`). But a postrun command that fails raises `CommandHookError` (`configurer.rb:224-232`) out of the `ensure` itself. That skips `Log.close` and `send_report`, and replaces the body's result. `send_report` rescues only StandardError (`configurer.rb:196-203`).
- **A state file that cannot be removed.** `dostorage` raises `Puppet::Error` when it cannot remove an unreadable state file (`configurer.rb:52-69`). `prepare` passes it on, and `run` rescues and logs it, then goes on to the catalog.
- **The timeout.** The error message of `Configurer.timeout` says the timeout "must be an integer", and the `when Integer` branch takes any Integer, zero and negatives included (`configurer.rb:207-222`). A String goes through `Kernel#Integer`, so `"010"` is eight.
- **The `@fixed` flag.** `retrieve` masks the desired modes `unless defined? @fixed` (`mode.rb:82`), a name that evidently means "adjusted once already". `@fixed` is never assigned in `mode.rb`, so `dirmask` runs on every retrieve. The model keeps the test and proves that repeating the adjustment is harmless (`FileMode.MaskAllIdempotent`).
- **A missing user.** The first sync that finds a desired user missing counts it, logs it and returns without a change (`uid.rb:109-122`). A later sync of the same user counts it again and goes on to `chown`: see Findings.
- **Owner `shouldprocess`.** `validuser?` is commented as determining whether a user is valid (`uid.rb:37`). On any value that is neither a String of digits nor an Integer it calls `Etc.getpwnam`, so a Symbol or nil raises `TypeError` instead of being found invalid. The model keeps that error.
- **The `uid == ""` test.** `id2name` and `name2id` compare `user.uid == ""` (`uid.rb:18`, `uid.rb:28`), evidently to refuse an entry without a uid. An `Etc` uid is an Integer, so the test is never true. The model leaves it out.

## Model

| member | source | states |
|---|---|---|
| RubyText.HasDigitLine | lib/puppet/type/pfile/mode.rb:44 | `s =~ /^[0-9]+$/` (and `/^\d+$/`) matches only a string holding a digit, and always matches a non-empty run of digits |
| RubyText.HasZeroLine | lib/puppet/type/pfile/mode.rb:47 | `s =~ /^0/` matches only a string holding a 0, and always matches one that starts with 0 |
| RubyText.SingleLinePatterns | lib/puppet/type/pfile/mode.rb:44-47 | on a string without a line break, `/^[0-9]+$/` matches exactly a non-empty run of digits, and `/^0/` matches exactly a string starting with 0 |
| RubyText.LeadingZeroKeepsValue | lib/puppet/type/pfile/mode.rb:47-49 | putting a 0 in front of a digit string never changes its value |
| RubyText.IntegerOf | lib/puppet/configurer.rb:212 | a successful `Kernel#Integer` gives a non-negative number, read from a stripped token made of digits only |
| RubyText.IntegerOfNeedsOneToken | lib/puppet/type/pfile/mode.rb:44-51 | if the string has a line of digits, its stripped token is a bare run of digits or holds whitespace (which `Kernel#Integer` refuses), so signs, underscores and prefixes never matter |
| RubyText.Strip | lib/puppet/type/pfile/mode.rb:51 | the token `Kernel#Integer` reads neither starts nor ends with whitespace, is no longer than the string, and is the string itself when that has no whitespace at either end |
| RubyText.StringToI | lib/puppet/type/pfile/uid.rb:40 | `String#to_i` is negative only after a leading minus sign, and 0 when the first non-blank character is neither a digit nor a sign |
| RubyText.StringToIDigits | lib/puppet/type/pfile/uid.rb:39-41 | `String#to_i` reads a run of digits whole, in decimal, leading zeros included |
| RubyText.FormatOctal | lib/puppet/type/pfile/mode.rb:17-18 | `"%o"` of n >= 0 is a non-empty run of octal digits whose octal value is n, with a leading 0 only for 0; of n < 0 it starts with "..7" |
| FileMode.ShouldProcess | lib/puppet/type/pfile/mode.rb:39-59 | a non-String passes unchanged; a String is Puppet::Error exactly when no line of it is digits; otherwise the result is a non-negative Integer or a DevError |
| FileMode.ShouldProcessDigits | lib/puppet/type/pfile/mode.rb:43-58 | a run of digits is read in octal whether or not it starts with 0; an 8 or a 9 makes it a DevError, not a Puppet::Error |
| FileMode.ShouldProcessRejectsNonDigits | lib/puppet/type/pfile/mode.rb:44-46 | on one line, anything but a non-empty run of digits is a Puppet::Error |
| FileMode.ShouldProcess644 | lib/puppet/type/pfile/mode.rb:47-51 | example of ShouldProcessDigits: "644" becomes 0644 (420) |
| FileMode.ShouldProcess0644 | lib/puppet/type/pfile/mode.rb:47-51 | example of ShouldProcessDigits: "0644" also becomes 0644 (420) |
| FileMode.ShouldProcessLetter | lib/puppet/type/pfile/mode.rb:44-46 | example of ShouldProcessRejectsNonDigits: "7a4" is refused with Puppet::Error |
| FileMode.ShouldProcessNonOctal | lib/puppet/type/pfile/mode.rb:50-55 | example of ShouldProcessDigits: "648" matches the pattern but fails the conversion: DevError |
| FileMode.DirMaskBits | lib/puppet/type/pfile/mode.rb:63-77 | widening the permission bits changes no bit except the three execute bits |
| FileMode.DirMaskBitsExec | lib/puppet/type/pfile/mode.rb:65-73 | after widening, an execute bit is set exactly when it, or the read bit of the same class, was set before |
| FileMode.DirMaskBitsIdempotent | lib/puppet/type/pfile/mode.rb:63-77 | widening twice is widening once |
| FileMode.DirMaskInt | lib/puppet/type/pfile/mode.rb:63-77 | off a directory an Integer mode is untouched; on a directory its low twelve bits are widened and no bit above them changes, whatever the sign |
| FileMode.DirMaskIntExec | lib/puppet/type/pfile/mode.rb:65-73 | on a directory an Integer mode has an execute bit exactly when it had it or the matching read bit |
| FileMode.DirMaskIntKeeps | lib/puppet/type/pfile/mode.rb:63-77 | dirmask never changes any permission bit but the execute bits |
| FileMode.DirMaskIntIdempotent | lib/puppet/type/pfile/mode.rb:63-77 | dirmask on an Integer is idempotent |
| FileMode.DirMask | lib/puppet/type/pfile/mode.rb:63-77 | off a directory any value is returned as is; on a directory an Integer is widened, nil/true/false come out as true, and any other value has no `&` (NoMethodError) |
| FileMode.DirMaskIdempotent | lib/puppet/type/pfile/mode.rb:63-77 | a masked value is its own mask |
| FileMode.MaskAll | lib/puppet/type/pfile/mode.rb:83-85 | `@should.collect { dirmask }` succeeds exactly when each desired value masks; the result then masks each value in place, length kept; otherwise NoMethodError |
| FileMode.MaskAllIdempotent | lib/puppet/type/pfile/mode.rb:82-85 | masking an already masked list changes nothing |
| FileMode.Render | lib/puppet/type/pfile/mode.rb:15-25 | an Integer renders as text (octal digits of its value for n >= 0, no leading 0 for n > 0), a Symbol as itself, anything else is DevError |
| FileMode.RenderRoundTrip | lib/puppet/type/pfile/mode.rb:27-59 | the octal text of a non-negative mode reads back through shouldprocess as the same mode |
| FileMode.RenderNegativeRejected | lib/puppet/type/pfile/mode.rb:15-46 | the text of a negative mode starts with "..", so shouldprocess refuses it with Puppet::Error |
| FileMode.RetrieveSpec | lib/puppet/type/pfile/mode.rb:79-92 | `is` becomes :notfound for a missing file, else an Integer within 07777 congruent to the stat mode; `@fixed` keeps the desired list; otherwise the list is masked, and a NoMethodError leaves it as it was |
| FileMode.RetrieveTwice | lib/puppet/type/pfile/mode.rb:79-92 | a retrieve that did not raise, repeated, changes nothing |
| FileMode.ChmodStep | lib/puppet/type/pfile/mode.rb:111-125 | a desired :notfound does nothing; otherwise chmod is called with the desired value, giving :inode_changed exactly for an accepted Integer and Puppet::Error otherwise |
| FileMode.SyncSpec | lib/puppet/type/pfile/mode.rb:94-126 | a property whose `is` is :notfound re-retrieves; it stops without chmod if the file is missing or now in sync, and otherwise goes on to chmod from the re-retrieved state; chmod is only ever called with the first desired value, never :notfound; the event is :inode_changed |
| FileMode.AfterChmod | lib/puppet/type/pfile/mode.rb:119 | the platform's chmod gives the file the mode's permission bits, keeps the file-type bits above them, and changes nothing else |
| FileMode.ModeConverges | lib/puppet/type/pfile/mode.rb:79-126 | after retrieve, a sync that chmods a desired mode within 07777 leaves the file so that the next retrieve finds the property in sync |
| FileMode.MissingFileIsNoop | lib/puppet/type/pfile/mode.rb:79-103 | with desired "644" and a missing file, retrieve records :notfound without raising, and sync does nothing and raises nothing |
| FileMode.ModeProperty.IsToS | lib/puppet/type/pfile/mode.rb:15-25 | an Integer `is` renders with `"%o"` as Render does: for n >= 0 as text that reads back as `is`, for n < 0 as "..7" text that shouldprocess refuses; a Symbol as itself; anything but an Integer or a Symbol is DevError |
| FileMode.ModeProperty.ShouldToS | lib/puppet/type/pfile/mode.rb:27-37 | the first desired value, if an Integer, renders with `"%o"` as Render does: for n >= 0 as text that reads back as it, for n < 0 as "..7" text that shouldprocess refuses; a Symbol as itself; anything but an Integer or a Symbol, and no desired value at all, is DevError |
| FileMode.ModeProperty.Retrieve | lib/puppet/type/pfile/mode.rb:79-92 | the fields change as RetrieveSpec says, with the dirmask loop over the desired list |
| FileMode.ModeProperty.Sync | lib/puppet/type/pfile/mode.rb:94-126 | the fields, result and chmod argument are those of SyncSpec |
| FileOwner.FindByUid | lib/puppet/type/pfile/uid.rb:10-17 | finds an entry exactly when the directory has the uid; the entry is in the directory and has that uid |
| FileOwner.FindByName | lib/puppet/type/pfile/uid.rb:25-27 | finds an entry exactly when the directory has the name; the entry is in the directory and has that name |
| FileOwner.Id2Name | lib/puppet/type/pfile/uid.rb:10-23 | a name exactly for an Integer uid in the directory, and that name belongs to that uid; nil for anything else |
| FileOwner.Name2Id | lib/puppet/type/pfile/uid.rb:25-35 | a non-String raises TypeError; a String gets a uid exactly when the directory has the name, and the pair is an entry |
| FileOwner.ValidUser | lib/puppet/type/pfile/uid.rb:37-57 | a digit String is read as a uid by `to_i`; an Integer is valid exactly when its uid exists; another String is valid exactly when the name exists; any other value is TypeError; a valid result is always an existing uid |
| FileOwner.ShouldProcess | lib/puppet/type/pfile/uid.rb:90-96 | a valid user becomes its uid, an unknown one stays as given, and a TypeError of validuser? escapes |
| FileOwner.ShouldProcessIdempotent | lib/puppet/type/pfile/uid.rb:90-96 | normalizing twice is normalizing once |
| FileOwner.NumericNameIsReadAsUid | lib/puppet/type/pfile/uid.rb:38-41 | a user named "7" cannot be named: "7" is read as uid 7 and, missing, is kept as text |
| FileOwner.IsToS | lib/puppet/type/pfile/uid.rb:59-62 | an Integer uid in the directory prints as a name whose entry has that uid; any other value prints as itself |
| FileOwner.ShouldToS | lib/puppet/type/pfile/uid.rb:64-74 | an Integer prints as its name exactly when the uid exists, else as itself; a String as itself; anything else is DevError |
| FileOwner.ShouldToSRoundTrip | lib/puppet/type/pfile/uid.rb:59-96 | in a directory with unique, non-numeric names, the printed desired uid reads back through shouldprocess as the same uid |
| FileOwner.RetrieveSpec | lib/puppet/type/pfile/uid.rb:76-83 | `is` is :notfound exactly for a missing file, else the stat's uid; the desired list is kept |
| FileOwner.Gate | lib/puppet/type/pfile/uid.rb:98-122 | as intended: non-root gives the notice once and stops; a missing user is counted, noticed the first time only, and stops; sync proceeds exactly as root with a resolved user, and then with an existing uid |
| FileOwner.GateAsWritten | lib/puppet/type/pfile/uid.rb:108-122 | the same counts and notices as the intended gate, and a different decision exactly for a repeated missing user as root, which proceeds with `false` |
| FileOwner.Finish | lib/puppet/type/pfile/uid.rb:124-144 | a :notfound `is` re-retrieves, and chown is skipped exactly when the file is still missing or now in sync; otherwise chown is called with the user, giving :inode_changed for an accepted Integer and Puppet::Error otherwise |
| FileOwner.SyncAsWritten | lib/puppet/type/pfile/uid.rb:98-145 | sync as the code is written: the shared state ends as the gate leaves it |
| FileOwner.RepeatedMissingUserRaises | lib/puppet/type/pfile/uid.rb:108-142 | as root, a second sync of the same missing user calls chown with false and raises Puppet::Error |
| FileOwner.SyncSpec | lib/puppet/type/pfile/uid.rb:98-145 | corrected sync: chown only as root and only with an existing uid resolved from the first desired value; TypeError exactly when validuser? raises; non-root changes nothing; the shared state only grows; it differs from the as-written sync exactly where that one chowns false |
| FileOwner.GateAll | lib/puppet/type/pfile/uid.rb:98-122 | over a run of syncs, at most one notice per sync; the non-root notice flag and the set of counted users only grow; as non-root the counts are untouched and the flag is set once any sync ran |
| FileOwner.NoticesOnce | lib/puppet/type/pfile/uid.rb:99-121 | over any run of syncs, each missing user is noticed once, exactly when first counted; the non-root notice is given at most once |
| FileOwner.MissingCounts | lib/puppet/type/pfile/uid.rb:111-121 | each missing user's count grows by the number of syncs that find it missing, and nothing else changes the counts |
| FileOwner.OwnerProperty.Retrieve | lib/puppet/type/pfile/uid.rb:76-83 | `is` changes as RetrieveSpec says |
| FileOwner.OwnerProperty.Sync | lib/puppet/type/pfile/uid.rb:98-145 | the property, the shared registry, the result, the notices and the chown argument are those of the corrected SyncSpec |
| Configurer.Timeout | lib/puppet/configurer.rb:207-222 | an Integer is taken as is; a String with a line of digits goes through `Kernel#Integer` to a non-negative value; every other case is ArgumentError |
| Configurer.TimeoutDigits | lib/puppet/configurer.rb:209-215 | a run of digits is decimal, or octal when it starts with 0, and then an 8 or a 9 is ArgumentError |
| Configurer.TimeoutLeadingZero | lib/puppet/configurer.rb:211-212 | example of TimeoutDigits: "010" is 8 |
| Configurer.TimeoutNotOctal | lib/puppet/configurer.rb:211-212 | example of TimeoutDigits: "09" is ArgumentError |
| Configurer.ExecuteFromSetting | lib/puppet/configurer.rb:224-232 | an empty command does nothing; otherwise the command runs once, and it fails exactly when the command does, a StandardError becoming CommandHookError |
| Configurer.DoStorageSpec | lib/puppet/configurer.rb:52-69 | failure (Puppet::Error) exactly for an unreadable file that cannot be removed; after success the file is readable or absent; a truthy compile time is kept, else it comes from the loaded file |
| Configurer.DoStorageLoads | lib/puppet/configurer.rb:52-69 | the state file is loaded once, twice after removing an unreadable one, and removed exactly when unreadable |
| Configurer.PrepareSpec | lib/puppet/configurer.rb:85-93 | dostorage's trace comes first and its failure stops prepare; plugins are downloaded exactly when dostorage passed, fact plugins exactly when the plugins also passed; after dostorage, the outcome is that of the first step that fails, or the prerun hook's; prepare passes exactly when every step passed |
| Configurer.PrepareActions | lib/puppet/configurer.rb:85-93 | prepare only loads/removes the state file, downloads plugins and runs a command, and runs the prerun command only after all else passed |
| Configurer.RetrieveCatalogSpec | lib/puppet/configurer.rb:96-138 | retrieve_catalog always starts by uploading the facts |
| Configurer.ConvertCatalog | lib/puppet/configurer.rb:141-148 | the host catalog is made from the catalog given, finalized, marked as the host config, with its class file written and the retrieval duration recorded |
| Configurer.RetrieveCatalogOutcome | lib/puppet/configurer.rb:96-138 | fresh lookup exactly when facts were ready; cache lookup exactly when the fresh one gave nothing without a fatal error and usecacheonfailure is set; nil exactly when neither gave a catalog and nothing escaped; a SystemExit or NoMemoryError of the fresh lookup escapes as it is; a catalog returned is converted from the attempt that produced it, with its duration |
| Configurer.RetrieveCatalogLogs | lib/puppet/configurer.rb:105-133 | a failed fresh lookup is logged exactly when it raised something other than SystemExit or NoMemoryError; "no cache on failure" exactly when the cache is not tried for that reason; a failed cache lookup exactly when it raised a StandardError; "Using cached catalog" exactly when the cache lookup returned |
| Configurer.RetrieveActions | lib/puppet/configurer.rb:96-138 | retrieve_catalog only uploads facts, looks up, converts and logs |
| Configurer.SendReport | lib/puppet/configurer.rb:196-203 | send_report raises only a non-StandardError, and exactly when the save of an existing report raises one |
| Configurer.SendReportActions | lib/puppet/configurer.rb:196-203 | send_report only adds metrics, prints the summary, saves and logs its failure |
| Configurer.SendReportCalls | lib/puppet/configurer.rb:196-203 | metrics exactly with a transaction; summary exactly when summarize is set and a report exists; save exactly when report is set and a report exists; the failure is logged exactly for a missing report or a StandardError of the save |
| Configurer.ApplySpec | lib/puppet/configurer.rb:173-184 | apply is called exactly for a catalog; a transaction exists exactly after an apply that passed, and then the report is returned; only a non-StandardError of apply escapes |
| Configurer.CatalogStage | lib/puppet/configurer.rb:166-184 | the report exists; a transaction exists exactly when a catalog was given or retrieved and applying it passed; the report is returned exactly with a transaction |
| Configurer.CatalogStageActions | lib/puppet/configurer.rb:166-184 | the catalog stage only uploads facts, looks up, converts, logs and applies |
| Configurer.CatalogStageGiven | lib/puppet/configurer.rb:166-167 | with a truthy `options[:catalog]`, nothing is looked up and apply never sees the :catalog key |
| Configurer.CatalogStageApplies | lib/puppet/configurer.rb:173-184 | a transaction exists only after the stage called apply |
| Configurer.BodySpec | lib/puppet/configurer.rb:154-184 | the body's trace starts with prepare's and keeps prepare's compile time and state file; a SystemExit or NoMemoryError of prepare ends the body with no report; otherwise the body ends as the catalog stage does |
| Configurer.BodyActions | lib/puppet/configurer.rb:154-184 | the body of run calls only what prepare and the catalog stage call, plus the new log destination |
| Configurer.BodyNeverClears | lib/puppet/configurer.rb:154-184 | the body never clears the HTTP connections |
| Configurer.BodyLogDestination | lib/puppet/configurer.rb:154-164 | the report becomes a log destination exactly when prepare did not raise SystemExit or NoMemoryError |
| Configurer.BodyGivenCatalog | lib/puppet/configurer.rb:163-184 | with a given catalog, the body looks nothing up and apply never sees the :catalog key |
| Configurer.BodyReport | lib/puppet/configurer.rb:175-184 | the body returns the report only after an apply that passed |
| Configurer.AfterClear | lib/puppet/configurer.rb:185-194 | a failing postrun command's error replaces the result and nothing follows the command; a passing one is followed by closing the log and by send_report, and the body's result stands unless send_report raises; the report is returned only if the body returned it; any other change of result is CommandHookError or a non-StandardError |
| Configurer.CleanupSpec | lib/puppet/configurer.rb:185-194 | the `ensure` starts by clearing the HTTP connections, and its result is that of the postrun hook and send_report after it |
| Configurer.CleanupClearsFirst | lib/puppet/configurer.rb:185-194 | the `ensure` clears the HTTP connections first, and only then |
| Configurer.CleanupClosesLog | lib/puppet/configurer.rb:188-193 | the log is closed, for the report exactly when one exists, exactly when the postrun command does not fail |
| Configurer.CleanupActions | lib/puppet/configurer.rb:185-194 | the `ensure` never looks up or applies a catalog |
| Configurer.RunSpec | lib/puppet/configurer.rb:153-194 | a run keeps prepare's compile time and state file, and its `ensure` trace starts with clearing the connections |
| Configurer.CleanupOnce | lib/puppet/configurer.rb:153-194 | on every way out of run the connections are cleared exactly once, first in the `ensure` and after all of the body |
| Configurer.PostrunGatesReport | lib/puppet/configurer.rb:185-194 | a run closes a log destination exactly when its postrun command does not fail |
| Configurer.PostrunThenReport | lib/puppet/configurer.rb:188-193 | after a passing postrun command the `ensure` ends with everything send_report does; after a failing one it holds no send_report action (metrics, summary, save, failure message) |
| Configurer.GivenCatalogSkipsRetrieval | lib/puppet/configurer.rb:153-194 | a run with a given catalog looks nothing up, and apply never sees the :catalog key |
| Configurer.ReportOnlyAfterApply | lib/puppet/configurer.rb:153-194 | run returns the report only after an apply that passed; a prepare failure other than SystemExit and NoMemoryError does not stop the run |
| Configurer.ReportAfterApply | lib/puppet/configurer.rb:153-194 | conversely, run returns the report when prepare raised nothing fatal, a catalog was given or retrieved, apply passed, the postrun command passed and no non-StandardError escaped from saving the report |
| Configurer.Client.Clear | lib/puppet/configurer.rb:38-41 | the catalog clears itself if there is one, and is dropped |
| Configurer.Client.DoStorage | lib/puppet/configurer.rb:52-69 | the retry loop leaves the trace, compile time, outcome and file of DoStorageSpec |
| Configurer.Client.Prepare | lib/puppet/configurer.rb:85-93 | the trace, compile time, outcome and file of PrepareSpec; the catalog is untouched |
| Configurer.Client.RetrieveCatalog | lib/puppet/configurer.rb:96-138 | the trace and result of RetrieveCatalogSpec |
| Configurer.Client.ApplyCatalog | lib/puppet/configurer.rb:173-184 | the trace and end state of ApplySpec |
| Configurer.Client.CatalogStep | lib/puppet/configurer.rb:166-184 | the trace and end state of CatalogStage; the caller's options lose a truthy :catalog key, and keep every other key |
| Configurer.Client.RunBody | lib/puppet/configurer.rb:154-184 | the trace, compile time, file and end state of the body; the caller's options lose a truthy :catalog key exactly when the body got past prepare |
| Configurer.Client.Run | lib/puppet/configurer.rb:153-194 | the trace is the body's followed by the `ensure`'s, with the result and state of RunSpec; the caller's options lose a truthy :catalog key exactly when prepare raised neither SystemExit nor NoMemoryError; the catalog is untouched |

## Left out

- I/O is not modelled: the file system, `Etc`, `Process.uid`, the catalog terminus, `Puppet::Util.execute`, the state file storage, plugin and fact handlers, and report saving. Each is a parameter that says what the call returns or raises.
- What these calls print or log: backtrace printing under `Puppet[:trace]`, `puts` of the summary, and the text of log messages. A logged message is a `Message` tag in the trace.
- `benchmark` and `thinmark` timings: a duration is a given natural number.
- `Puppet::State#insync?` and `#should` belong to a base class outside this model. `PFile.InSync` assumes that `is` must equal one of the desired values (or that there are none). `PFile.ShouldOf` takes the first desired value.
- `@parent.stat(true)`: only the stat's mode and uid, and whether the path is a directory, are modelled.
- The platform's chmod and chown are a flag saying whether the call succeeds for an Integer argument. Any non-Integer argument makes them raise.
- `to_ral`, `finalize`, `write_class_file`, `Log.newdestination`, `Log.close`, `clear_http_instances`, `add_metrics_to_report` and `report.summary` are assumed never to raise.
- `Configurer.Client` holds no report object: whether a report exists is a flag.
- Configurer.Client.Run: the caller's options hash is a value; the hash after the run is returned as `optionsAfter`, so another reference to the same hash is not shown losing :catalog.
- Storage.load and the compile-time lookup fail only on an unreadable state file. After removal, the state file is absent and loads.
- `initialize`, `initialize_report`, `self.instance`, `self.lockfile_path` and `self.to_s` only record or return objects, and are not modelled.
- The splay, locking and daemon logic of the agent that calls `run` is not part of this model.
- IntegerOf: reads only strings whose stripped token is a bare run of digits. A sign, an underscore or a radix prefix is treated as a failure. Every place that calls it has first checked for a line of digits, and `RubyText.IntegerOfNeedsOneToken` shows that such a string has no other readable form.
- FileOwner.ValidUser: under Ruby 1.8, `=~` on a Symbol, nil, true or an Integer answers no match. Later Rubies match a Symbol against the pattern as a String; that is not modelled.
- A uid is any Integer. The platform's `uid_t` range is not modelled.
- The `info` messages of both properties' `sync` are not recorded; only the owner property's notices are.

## Findings

| source | as written | input that shows it | evidently intended | confidence | as-written member | corrected member |
|---|---|---|---|---|---|---|
| lib/puppet/type/pfile/uid.rb:109-122 | a desired user already counted as missing is counted again, but `sync` does not return: it goes on with `user` false, so `File.chown(false, nil, path)` raises TypeError, which is re-raised as Puppet::Error | as root, desired "nobody" missing from the user directory and counted once before, on an existing file with uid 0 | a repeated missing user is only counted, and sync returns nil as it did the first time | not executed | FileOwner.RepeatedMissingUserRaises | FileOwner.SyncSpec |
