# infoset core, modelled in Dafny

infoset collects SNMP interface counters from network devices, caches each
snapshot as a JSON file named `<timestamp>_<uid>.json`, and stores the
samples in MySQL. Stored counters are read back and turned into a gauge
series on a 300-second grid. This project models four parts of that:

- **`Normalizer`** (`normalizer.dfy`). This is `GetIDX` of
  `infoset/db/db_data.py`:
  - it resolves the query window from an optional start and stop and the
    current time, issues the range query through the store, and loads the
    rows into a timestamp → value map (a falsy value is fatal, code 1302);
  - `_counter` pre-fills a zero grid, then walks the samples in ascending
    order. It copies gauges and differences counters. The earliest counter
    sample is only a baseline, and a negative difference is replaced by the
    source's literal formula `MOD + abs(value) - 1`;
  - the class keeps the source's fields and loops, and `Counter` is proved
    against the ghost reference function `Normalize`.
- **`Database`** (`database.dfy`). This is `Database` of `infoset/db/db.py`:
  - `query` accepts only a statement whose first word, lower-cased, is
    `select`; `modify` accepts only `update`, `delete`, `insert` and
    `replace`;
  - a blank statement raises IndexError;
  - the MySQL server is abstract: its reply is an input, and the calls made
    on the connection are recorded in `Store.trace`.
- **`Interfaces`** (`interfaces.dfy`). This is the interfaces polling agent
  of `infoset/agents/standard/interfaces.py`:
  - `query` skips hosts without credentials (warning 1022) or without
    IF-MIB support (warning 1024);
  - `upload` builds the ignore list from the oper-status, stops when there
    are no descriptions, then builds the 32-bit and 64-bit octet families,
    posts, and purges only on success;
  - the agent object records the calls made on it.
- **`CacheEntry`** (`cache_entry.dfy`). This is the cache-entry validity
  verdicts and the `_filename` helper of
  `infoset/test/test_jm_validate.py`.

Shared modules:
- `Failures` holds `Result`/`Option`. A `log2die` becomes `Err(Die(code))`
  and an uncaught Python exception becomes `Err(Uncaught(...))`.
- `Text` holds Python's `str()` of integers and its inverse.
- `Maps` holds one map lemma.

## Model

| member | source | states |
|---|---|---|
| Text.Decimal | infoset/test/test_jm_validate.py:467-470 | `str(n)`: non-empty, digits with an optional leading minus, the minus exactly for negative numbers, and no leading zero: a string starting with 0 is exactly `"0"`, printed only for 0, and a minus is never followed by 0 |
| Text.DecimalRoundTrip | infoset/db/db_data.py:68-74 | reading back the printed decimal gives the integer back |
| Text.DecimalInjective | infoset/test/test_jm_validate.py:467-470 | two integers that print alike are equal |
| Database.SkipSpace | infoset/db/db.py:50 | the result is a suffix of the input; everything dropped is whitespace; the result starts with no whitespace |
| Database.Word | infoset/db/db.py:50 | the result is the longest prefix free of whitespace: a prefix, without whitespace, followed by whitespace or the end |
| Database.FirstWord | infoset/db/db.py:50 | `split()[0]`: None exactly for an all-whitespace statement (IndexError); otherwise a non-empty, whitespace-free word preceded only by whitespace and followed by whitespace or the end |
| Database.Lower | infoset/db/db.py:51 | same length, every character lower-cased |
| Database.IsReadStatement | infoset/db/db.py:50-51 | the read guard of `query`; `ReadStatementOf`, `SelectAnyCase`, `GuardsIgnoreCase` and `BlankHasNoFirstWord` establish that it accepts exactly the statements whose first word is SELECT in any case |
| Database.IsWriteStatement | infoset/db/db.py:100-104 | the write guard of `modify`; `WriteStatementOf`, `GuardsIgnoreCase` and `GuardsDisjoint` establish that it accepts the four modification keywords in any case and never a statement the read guard accepts |
| Database.GuardsDisjoint | infoset/db/db.py:49-54 | no statement passes both the read guard and the write guard |
| Database.FirstWordLower | infoset/db/db.py:51 | lower-casing a statement lower-cases its first word and keeps whether it has one |
| Database.GuardsIgnoreCase | infoset/db/db.py:101-104 | two statements that agree up to letter case get the same verdict from both guards |
| Database.ReadStatementOf | infoset/db/db.py:50-51 | any case variant of SELECT followed by whitespace or nothing passes the read guard |
| Database.WriteStatementOf | infoset/db/db.py:99-104 | any case variant of the four modification keywords, followed by whitespace or nothing, passes the write guard and fails the read guard |
| Database.SelectAnyCase | infoset/db/db.py:51 | `SELECT x`, `Select x` and `select x` are all accepted by `query` |
| Database.UpdateIsWriteOnly | infoset/db/db.py:99-109 | `UPDATE t` is accepted by `modify` and refused by `query` |
| Database.BlankHasNoFirstWord | infoset/db/db.py:100 | the example statement `" \t\n"` has no first word, so `split()[0]` raises IndexError on it (the general fact is the first ensures of `FirstWord`) |
| Database.ApplyOp | infoset/db/db.py:121-126 | `executemany` exactly when the batch is non-empty |
| Database.QueryOps | infoset/db/db.py:56-83 | the connection calls of `query`; `Store.Query` and `Store.Fetch` establish that they are exactly what the store records for each server reply, with close only after a successful fetch |
| Database.ModifyOps | infoset/db/db.py:111-145 | the connection calls of `modify`; `ModifyTransaction` and `ApplyOp` establish commit right after a successful step, rollback on every failure, close only on success, and `executemany` exactly for a non-empty batch |
| Database.ModifyTransaction | infoset/db/db.py:119-145 | commit exactly when the statement step succeeded, right after it; rollback exactly on failure; close only on success |
| Database.Store.constructor | infoset/db/db.py:25-36 | a fresh store has an empty trace |
| Database.Store.Query | infoset/db/db.py:38-83 | IndexError on a blank statement and die with the caller's code on a non-SELECT, both without touching the connection; otherwise the connect/execute/fetch/close calls, and the rows or a fatal error |
| Database.Store.Fetch | infoset/db/db.py:56-83 | the connection calls of a query per server reply, and the rows only when execute and fetch succeed |
| Database.Store.Modify | infoset/db/db.py:85-145 | IndexError on a blank statement and die with the caller's code on a statement that is not a modification, both without touching the connection; otherwise the calls of `ModifyOps` and success only when the server applied the statement |
| Database.Store.Apply | infoset/db/db.py:111-145 | executes once or over the batch, then commits and closes, or rolls back and dies |
| Normalizer.ResolveWindow | infoset/db/db_data.py:50-64 | the window from the optional bounds and the two clock readings (the one for the start default, then the one for the stop default); the resolved start never exceeds the stop |
| Normalizer.WindowRules | infoset/db/db_data.py:50-64 | a given start is kept for a gauge and moved back by 300 for a counter; a missing start is one day before the first clock reading; a missing stop is the second reading; a start past the stop collapses onto it |
| Normalizer.MissingStartIsNotShifted | infoset/db/db_data.py:51-58 | the 300-second shift applies only to a given start, not to the default one |
| Normalizer.DefaultWindowLength | infoset/db/db_data.py:50-61 | with neither bound, the window spans one day plus the clock's advance between its two readings, so one day and 300 s when an interval boundary passes between them |
| Normalizer.RangeQuery | infoset/db/db_data.py:66-74 | the range query text; `RangeQueryIsRead` establishes that it passes the store's read guard, and its bounds are printed by `Text.Decimal`, whose round trip pins the values |
| Normalizer.RangeQueryTail | infoset/db/db_data.py:68-74 | the text after the keyword starts with a space |
| Normalizer.RangeQueryIsRead | infoset/db/db_data.py:68-78 | the range query passes the store's read guard |
| Normalizer.Truthy | infoset/db/db_data.py:83 | Python truthiness of a stored value; `GetIdx.Load` establishes that the load succeeds exactly when every row is truthy, and `Samples` that only non-zero values are then stored |
| Normalizer.Samples | infoset/db/db_data.py:81-90 | every stored value is non-zero |
| Normalizer.SamplesContent | infoset/db/db_data.py:81-90 | the map holds exactly the rows' timestamps, each with the value of the last row carrying it |
| Normalizer.ZeroFilled | infoset/db/db_data.py:123-127 | every pre-filled bucket is zero |
| Normalizer.Grid | infoset/db/db_data.py:122-127 | every grid bucket is zero |
| Normalizer.GridShape | infoset/db/db_data.py:122-127 | the grid is first bucket + 300·i for every i staying below `ts_stop + 300` |
| Normalizer.BaselineBucket | infoset/db/db_data.py:122-127 | a counter grid leaves out the window start and a gauge grid includes it |
| Normalizer.Latest | infoset/db/db_data.py:130-156 | the predecessor of a timestamp is the largest sample timestamp below it |
| Normalizer.Modulus | infoset/db/db_data.py:146-149 | the wrap modulus is 2^32 or 2^64 |
| Normalizer.CounterValue | infoset/db/db_data.py:139-150 | a counter bucket is never negative |
| Normalizer.CounterRepair | infoset/db/db_data.py:139-150 | a non-negative difference is kept; a negative one becomes 4294967296 + abs(current) − 1 for base type 32 and 2^64 + abs(current) − 1 otherwise, never below MOD − 1 |
| Normalizer.SortedTimestamps | infoset/db/db_data.py:130 | `sorted(...)`: strictly ascending, with exactly the given timestamps |
| Normalizer.LatestIsPrevious | infoset/db/db_data.py:130-156 | in the ascending walk, the previous timestamp of each sample but the first is the entry before it, and the first has none |
| Normalizer.Written | infoset/db/db_data.py:130-153 | the buckets the sample walk writes; `WalkStep` and `WalkDone` establish that the loop writes exactly these, and `CounterWritten` that a counter writes every sample but the earliest, from its predecessor |
| Normalizer.WalkStep | infoset/db/db_data.py:130-156 | step i writes nothing for a counter's earliest sample, the value for a gauge, and the counter value from entry i−1 otherwise |
| Normalizer.WalkDone | infoset/db/db_data.py:130-156 | after the whole walk every written bucket is in place |
| Normalizer.NoSamplesGivesGrid | infoset/db/db_data.py:119-127 | with no samples the series is the zero grid |
| Normalizer.Normalize | infoset/db/db_data.py:119-159 | the series `_counter` returns; `GetIdx.Counter` is proved equal to it, and `GaugeSeries`, `CounterSeries`, `CounterSeriesNonNegative` and `NoSamplesGivesGrid` establish its content |
| Normalizer.GaugeSeries | infoset/db/db_data.py:122-124 | a gauge series is the grid plus the samples, holds every sample unchanged, and is zero elsewhere |
| Normalizer.CounterSeries | infoset/db/db_data.py:126-150 | a counter series is the grid plus every sample but the earliest; each holds the counter value from its predecessor; every other bucket is zero |
| Normalizer.CounterWritten | infoset/db/db_data.py:130-150 | a counter walk writes every sample but the earliest, each from the entry before it |
| Normalizer.CounterSeriesNonNegative | infoset/db/db_data.py:139-150 | no bucket of a counter series is negative |
| Normalizer.GaugeGapFill | infoset/db/db_data.py:122-124 | a gauge over [0, 600] with no samples is {0:0, 300:0, 600:0} |
| Normalizer.CounterGapFill | infoset/db/db_data.py:126-127 | a counter over [0, 600] with no samples is {300:0, 600:0} |
| Normalizer.CounterDelta | infoset/db/db_data.py:140-144 | samples {0:1000, 300:1500} give {300:500} |
| Normalizer.Counter32Wrap | infoset/db/db_data.py:145-147 | samples {0:4294967290, 300:50} of a 32-bit counter give {300:4294967345} |
| Normalizer.CounterExample | infoset/db/db_data.py:126-150 | two counter samples at 0 and 300 over [0, 300] give the single bucket 300 |
| Normalizer.GetIdx.constructor | infoset/db/db_data.py:43-64 | the fields hold the resolved window and an empty sample map |
| Normalizer.GetIdx.Load | infoset/db/db_data.py:80-90 | succeeds exactly when every row value is truthy, and then the sample map is `Samples(rows)`; otherwise it dies with 1302 |
| Normalizer.GetIdx.Open | infoset/db/db_data.py:30-90 | issues the range query of the resolved window with code 1301; dies with 1301 when the query fails and with 1302 on a falsy value; otherwise a fresh object with the window and the samples |
| Normalizer.GetIdx.Everything | infoset/db/db_data.py:92-104 | the result is the normalised series of the object's window and samples |
| Normalizer.GetIdx.Counter | infoset/db/db_data.py:106-159 | the loop's result is `Normalize` of the object's base type, window and samples |
| Interfaces.Down | infoset/agents/standard/interfaces.py:137-141 | the ignore list; `DownMembers` establishes that it holds exactly the interfaces whose status is not 1, and `IgnoreList` computes it |
| Interfaces.DownMembers | infoset/agents/standard/interfaces.py:137-141 | the ignore list holds exactly the interfaces whose status is not 1 |
| Interfaces.IgnoreList | infoset/agents/standard/interfaces.py:137-141 | the loop builds the ignore list |
| Interfaces.Relabel | infoset/agents/standard/interfaces.py:196-202 | one metric relabelled; `RelabelErr`, `RelabelContent` and `RelabelInBits` establish when it fails (KeyError), which keys and values it holds, and that the values are in bits |
| Interfaces.RelabelErr | infoset/agents/standard/interfaces.py:196-202 | one metric fails exactly when a non-ignored interface has no description, and the failure is KeyError |
| Interfaces.RelabelContent | infoset/agents/standard/interfaces.py:196-202 | the relabelled keys are exactly the descriptions of the non-ignored interfaces; each holds 8 × octets of the last interface carrying it |
| Interfaces.RelabelInBits | infoset/agents/standard/interfaces.py:202 | every relabelled value is a multiple of 8 |
| Interfaces.Merge | infoset/agents/standard/interfaces.py:202 | one label's relabelled metric stored into the nested defaultdict; `FillLabel` establishes that the inner loop leaves exactly this, and `ChartOfPair` that a label appears only when it got an entry |
| Interfaces.ChartOf | infoset/agents/standard/interfaces.py:239-245 | the nested defaultdict of one family; `ChartOfErr` establishes that it fails exactly when a metric fails, with KeyError, and `ChartOfPair` that each label holds exactly its metric's entries |
| Interfaces.ChartOfErr | infoset/agents/standard/interfaces.py:196-202 | a family fails exactly when one of its metrics fails, with KeyError |
| Interfaces.ChartOfPair | infoset/agents/standard/interfaces.py:239-245 | with two labels, each label holds exactly its metric's entries, and appears exactly when it has some |
| Interfaces.FamilyCalls | infoset/agents/standard/interfaces.py:190-205 | the calls of one octet family; `FamilyCallsShape`, `EmptyMetricPopulatesNothing` and `ChartOfErr` establish at most one populate with an empty prefix, none when a metric is empty, and failure only by KeyError |
| Interfaces.Family32 | infoset/agents/standard/interfaces.py:208-248 | the 32-bit family; `FamilyBaseTypes` establishes that it populates counter32 under ifInOctets/ifOutOctets |
| Interfaces.Family64 | infoset/agents/standard/interfaces.py:162-205 | the 64-bit family; `FamilyBaseTypes` and `Unsupported64KeepsFamily32` establish counter64 under ifHCInOctets/ifHCOutOctets and nothing when unsupported |
| Interfaces.EmptyMetricPopulatesNothing | infoset/agents/standard/interfaces.py:234-237 | an empty metric answer makes the family populate nothing |
| Interfaces.FamilyCallsShape | infoset/agents/standard/interfaces.py:191-205 | a family populates at most once, exactly when no metric is empty, with prefix '' and its base type |
| Interfaces.FamilyBaseTypes | infoset/agents/standard/interfaces.py:185-248 | the 32-bit family populates counter32 under ifInOctets/ifOutOctets; the 64-bit family populates counter64 under ifHCInOctets/ifHCOutOctets |
| Interfaces.UploadCalls | infoset/agents/standard/interfaces.py:120-159 | the calls of one upload; `EmptyDescriptionsNoCalls`, `PurgeIffPosted`, `Unsupported64KeepsFamily32` and `UploadFailsOnlyOnKeyError` establish none without descriptions, otherwise 32-bit then 64-bit then one post, a purge exactly when the post succeeded, and failure only by KeyError |
| Interfaces.EmptyDescriptionsNoCalls | infoset/agents/standard/interfaces.py:143-146 | with no descriptions nothing is populated, posted or purged |
| Interfaces.PurgeIffPosted | infoset/agents/standard/interfaces.py:148-159 | once past the descriptions check, upload posts, and purges right after the post exactly when the post succeeded |
| Interfaces.Unsupported64KeepsFamily32 | infoset/agents/standard/interfaces.py:178-182 | an unsupported 64-bit MIB adds nothing and leaves the 32-bit family as it is |
| Interfaces.UploadFailsOnlyOnKeyError | infoset/agents/standard/interfaces.py:201 | the only way an upload fails is a KeyError from the `descriptions[key]` lookup of a non-ignored interface (here for the 64-bit family, at line 244 of the same file for the 32-bit one) |
| Interfaces.HostEvents | infoset/agents/standard/interfaces.py:89-118 | one event per host: a warning exactly when credentials or IF-MIB are missing, with the host's name; otherwise the host's session under its uid and name; failure only from the upload |
| Interfaces.QueryEvents | infoset/agents/standard/interfaces.py:89-118 | what a poll leaves behind; `QueryEventsPerHost`, `QueryEventsAppend`, `StoppedFails` and `SkippedHostContinues` establish one event per host in order, sequential composition, and that only an uncaught KeyError ends the poll |
| Interfaces.QueryEventsPerHost | infoset/agents/standard/interfaces.py:89-118 | a completed poll has one event per host, in host order |
| Interfaces.QueryEventsAppend | infoset/agents/standard/interfaces.py:89-118 | polling a list in two parts is polling the first part, then the second |
| Interfaces.QueryStep | infoset/agents/standard/interfaces.py:89-118 | one more host adds its own events |
| Interfaces.StoppedFails | infoset/agents/standard/interfaces.py:117-118 | an upload that raises ends the whole poll with its failure |
| Interfaces.SkippedHost | infoset/agents/standard/interfaces.py:96-112 | a host without credentials gets warning 1022, one without IF-MIB gets 1024, and neither is uploaded |
| Interfaces.SkippedHostContinues | infoset/agents/standard/interfaces.py:96-112 | a skipped host does not stop the loop: the rest follows its warning |
| Interfaces.Agent.constructor | infoset/agents/standard/interfaces.py:135 | a new agent object carries the uid and hostname and has no calls yet |
| Interfaces.Agent.PopulateDict | infoset/agents/standard/interfaces.py:205 | records one `populate_dict` call |
| Interfaces.Agent.Post | infoset/agents/standard/interfaces.py:155 | records the post and returns whether the server accepted it |
| Interfaces.Agent.Purge | infoset/agents/standard/interfaces.py:159 | records the purge |
| Interfaces.FillLabel | infoset/agents/standard/interfaces.py:197-202 | the inner loop merges exactly the relabelled metric under its label, or fails with KeyError exactly when relabelling fails |
| Interfaces.UpdateFamily | infoset/agents/standard/interfaces.py:190-205 | the agent gets exactly the family's calls; on KeyError it gets none |
| Interfaces.Update32 | infoset/agents/standard/interfaces.py:208-248 | `_update_32` makes exactly the calls of the 32-bit family |
| Interfaces.Update64 | infoset/agents/standard/interfaces.py:162-205 | `_update_64` makes exactly the calls of the 64-bit family, none when unsupported |
| Interfaces.PollingAgent.constructor | infoset/agents/standard/interfaces.py:43-58 | the agent is named `interfaces` and the log starts empty |
| Interfaces.PollingAgent.Upload | infoset/agents/standard/interfaces.py:120-159 | logs the host's session with exactly the calls of `UploadCalls`, or fails with that failure and leaves the log alone |
| Interfaces.PollingAgent.Query | infoset/agents/standard/interfaces.py:77-118 | succeeds exactly when the poll does and logs its events; on failure the log holds the events of exactly the hosts before the failing one; the failure is the poll's own, which is always the upload's KeyError |
| CacheEntry.Valid | infoset/test/test_jm_validate.py:299-410 | the verdict of `valid()` as the tests assert it; `GoodIsValid` and the five fixture lemmas reproduce each test's verdict, `MissingKeyInvalid` and `TimestampMustBeInt` generalise the failing ones to any entry |
| CacheEntry.MissingKeyInvalid | infoset/test/test_jm_validate.py:323-410 | removing any required key makes an entry invalid |
| CacheEntry.TimestampMustBeInt | infoset/test/test_jm_validate.py:375-388 | a non-integer timestamp makes an entry invalid |
| CacheEntry.OtherKeysIgnored | infoset/test/test_jm_validate.py:309-320 | keys other than the four required ones do not change the verdict |
| CacheEntry.GoodIsValid | infoset/test/test_jm_validate.py:299-320 | the well-formed fixture is valid |
| CacheEntry.NoAgentIsInvalid | infoset/test/test_jm_validate.py:325-336 | the fixture without agent is invalid |
| CacheEntry.NoHostnameIsInvalid | infoset/test/test_jm_validate.py:339-350 | the fixture without hostname is invalid |
| CacheEntry.NoTimestampIsInvalid | infoset/test/test_jm_validate.py:353-372 | the fixture without timestamp is invalid |
| CacheEntry.NotIntTimestampIsInvalid | infoset/test/test_jm_validate.py:375-388 | the fixture whose timestamp is a string is invalid |
| CacheEntry.NoUidIsInvalid | infoset/test/test_jm_validate.py:391-410 | the fixture without uid is invalid |
| CacheEntry.Render | infoset/test/test_jm_validate.py:469 | `'%s' %` of an integer or a string; `Text.DecimalRoundTrip` establishes that an integer is printed recoverably |
| CacheEntry.FileName | infoset/test/test_jm_validate.py:467-470 | `_filename`; `FileNameRoundTrip` and `FileNameUnique` establish that the name gives back its integer timestamp and its uid and that distinct entries get distinct names |
| CacheEntry.FirstIndex | infoset/test/test_jm_validate.py:467-470 | the helper of `ParseFileName`, the inverse of `_filename`: the position of the first occurrence of a character, or none exactly when it does not occur |
| CacheEntry.FileNameRoundTrip | infoset/test/test_jm_validate.py:467-470 | the name of an entry with an integer timestamp gives back that timestamp and uid, whatever the uid holds |
| CacheEntry.FileNameUnique | infoset/test/test_jm_validate.py:467-470 | two entries share a file name only when they share timestamp and uid |
| CacheEntry.MadeUpNameIsGoodName | infoset/test/test_jm_validate.py:355-358 | the name made up for the entries without a timestamp or without a uid is the well-formed entry's name |

## Left out

- Connection setup and SQL execution belong to pymysql and the MySQL server. What the server does with a statement is an input of `Store.Query`/`Store.Modify`. The configuration getters for the credentials are not modelled.
- `log2die` and `log2warn` write logs, and `log2die` exits. They become `Err(Die(code))` and `Warn(code, hostname)`; the message texts are left out.
- `jm_general.normalized_timestamp()` is the clock. Its two readings in `__init__` become the `nowStart` and `nowStop` parameters of `Normalizer.ResolveWindow`; the model does not relate them, since the source takes them at two moments.
- `db_datapoint.GetIDX(...).base_type()` is a database lookup. It becomes the `baseType` parameter.
- `Database.Lower` changes only ASCII letters. Python's `str.lower()` also folds non-ASCII letters, but that never changes whether a word equals one of the five ASCII keywords.
- The stored values are modelled as integers (or NULL). Other column types, and the `pprint` import, are not modelled.
- SNMP transport (`snmp_manager`, `mib_if`, `mib_if_64`) is an input:
  - its answers are `Host` fields;
  - a dict answer is a sequence of pairs in iteration order;
  - `ifdescr(safe=True)` returning None is the empty map, which is as falsy as None.
- The agent library is not part of this model. `Agent.get_uid`, `Agent.Agent`, and the HTTP post and file purge behind `post()`/`purge()` are recorded as calls, with the post's outcome as an input.
- Configuration loading, `PollingAgent.name()`, `AgentCLI` and `main` are left out. These are configuration and command-line plumbing; the agent name is the constant `agentName`.
- `Interfaces.PollingAgent.Upload`: when a KeyError escapes, the model drops that host's partly filled agent object and logs nothing for it. The Python process would stop there, so nothing more is observable.
- `infoset/snmp/poll_oids.py` is not part of this model. It is thread and filesystem plumbing with no computation of its own.
- `infoset/cache/validate.py` (the validator) is not part of this model. `CacheEntry.Valid` is rebuilt from the verdicts the tests assert. Three things the tests never assert are left out: rejecting a snapshot without `chartable`, rejecting float counter values, and checking the shape of `chartable` (each label holding `base_type` and `data`, each data row an `[index, value, source]` record). In those tests the `valid()` calls are commented out and the float check compares with the `float` type itself.
- `CacheEntry.OtherKeysIgnored`: it describes the rebuilt predicate `CacheEntry.Valid`, not the validator itself, which may also inspect `chartable`.
- The tests' file writing, JSON serialisation and temporary directories are left out, because they are I/O.
- `CacheEntry.Render` covers `'%s' %` only for integers and strings, the two kinds the file names are built from. Other kinds of value are not modelled.
- `Normalizer.GetIdx.Counter` returns a map, so the key order of the dict `_counter` builds is not modelled: the grid in ascending order, then the off-grid sample timestamps in walk order.
