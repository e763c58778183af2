# weko-group-cache-db, modelled in Dafny

weko-group-cache-db keeps a Redis cache of the groups that each institution
(a WEKO service provider, identified by its FQDN) holds in the GakuNin
group-mapping API. The model covers the following pieces:

- The manifest loader, `load_institutions`. It reads the `institutions`
  array of a TOML file, validates each record against the `Institution`
  model and keeps the records whose TLS client certificate and key exist.
- The fetch → retry → cache pipeline of `groups.py`:
  - `fetch_map_groups` issues one GET against the API and extracts the
    group ids from `entry[*].id`.
  - `set_groups_to_redis` issues HSET of `groups` and `updated_at` under the
    underscored FQDN plus a suffix, then PERSIST, then EXPIRE.
  - The `fetch_and_cache` decorator retries on RequestException and
    RedisError, up to `REQUEST_RETRIES + 1` attempts.
  - `fetch_all` and `fetch_one` run these over the manifest on one
    connection.
- The exception hierarchy of `exc.py`.
- The older one-attempt orchestrators of `utils.py`.
- The two small services that share the cache:
  - get-groups runs `get_groups_from_gakunin`, `set_groups` and its own
    `set_groups_to_redis`, driven by the task loop of `tasks.py`.
  - new-group's `set_group_id` parses a group id and appends it to a Redis
    list.

Redis is a value (`Redis.Db`): typed keys (hash or list), expiries, and a
fault script that says which of the next commands lose the connection.
`Redis.Store` is a class holding that value, so the imperative code issues
commands on it one at a time. The API, the file system (the set of
existing paths), the clock (a timestamp parameter) and the message table
are parameters.

Each imperative loop of the source is a `method` proved equal to a
left-fold specification function. The properties are lemmas about those
functions:

- round trips: validation of an encoded record; the split of the stored
  `groups` field;
- the retry bounds;
- exactly which institutions are attempted, and in what order;
- what each Redis command sequence leaves in the store;
- how the services interact on a shared key.

Where the prose documentation and the code disagree, the model follows the
code:

- A missing manifest file makes `load_institutions` log and return an
  empty list (loader.py:42-44); it raises no ConfigurationError.
- A manifest without an `institutions` list also gives an empty list.
- `name` is typed `str | None` with no default, so it is required. TOML
  has no null, so in a manifest it is always a string.
- `raise_for_status` rejects only statuses 400-599. A 3xx status that
  reaches the code is read as a body.
- `CACHE_TTL = 0` makes EXPIRE delete the record that was just written.
  A negative TTL leaves it with no expiry, because PERSIST ran first.
- HSET merges the two fields into whatever hash is already at the key,
  so other fields survive.
- The retry decorator reads three wait settings that `Settings` does not
  define, so as shipped every wrapped call raises AttributeError before
  its first attempt (see Findings). The rest of the model assumes the
  settings exist.
- A manifest that exists but cannot be opened raises the OSError from
  `open`; only FileNotFoundError is caught.

## Model

| member | source | states |
|---|---|---|
| Exc.NewUpdateError | weko_group_cache_db/exc.py:12-25 | an UpdateError belongs to the package's error family and stores the fqdn and origin it was given |
| Exc.NewCacheDbError | weko_group_cache_db/exc.py:8-9 | the base error accepts a message alone; passing `origin=` fails with TypeError, which is outside the package's error family |
| Exc.UpdateErrorMessage | weko_group_cache_db/exc.py:27-28 | the string form starts with "FQDN: fqdn, " and ends with the origin's own message; the fqdn can be read back from it when it holds no comma |
| Http.CheckedBody | weko_group_cache_db/groups.py:185 | `raise_for_status` passes the body through exactly when the response is an HTTP response whose status is outside 400-599; otherwise it raises a RequestException |
| Http.UrlJoin | weko_group_cache_db/groups.py:178 | `urljoin` with an empty base gives the reference, and with an empty reference gives the base |
| Http.Authority | weko_group_cache_db/groups.py:178 | the `scheme://netloc` part is a prefix of the base; when it is non-empty and shorter than the base, the next character is '/' |
| Http.Resolve | weko_group_cache_db/groups.py:178 | the dot-segment loop never leaves a `.` or `..` segment and never lengthens the path |
| Http.ResolveSnoc | weko_group_cache_db/groups.py:178 | a plain segment at the end of the path is kept |
| Http.ResolveParent | weko_group_cache_db/groups.py:178 | a segment followed by `..` cancels out |
| Http.ResolveClean | weko_group_cache_db/groups.py:178 | a path without dot segments resolves to itself |
| Http.UrlJoinLastSegment | weko_group_cache_db/groups.py:178 | for any base, joining a reference that is one plain segment (non-empty, no '/', not `.` or `..`) makes that reference the last segment of the URL |
| Http.UrlJoinOntoHost | weko_group_cache_db/groups.py:178 | onto a base that is only `scheme://netloc`, a plain segment is joined after one '/' |
| Http.UrlJoinCleanBase | weko_group_cache_db/groups.py:178 | on a base whose path has no empty or dot segment, a plain segment replaces the text after the last '/', so a base ending in '/' simply gains the reference |
| Loader.UsedKey | weko_group_cache_db/loader.py:123-135 | a field is read under its alias or its name, only from keys present, and is missing only when both spellings are absent |
| Loader.ValidateEncode | weko_group_cache_db/loader.py:114-137 | every institution written with any mix of field names and aliases validates back to itself |
| Loader.ValidateExactly | weko_group_cache_db/loader.py:114-137 | a record validates to an institution if and only if it is that institution written in some spelling: no extra key, no missing field, every value a string |
| Loader.ValidateRejectsExtra | weko_group_cache_db/loader.py:132-137 | `extra="forbid"`: a key outside the model's names and aliases makes validation fail |
| Loader.ReportedName | weko_group_cache_db/loader.py:73-79 | a record that fails validation is reported by its `fqdn` value, or "Unknown" when it has none; `.get` on a non-table raises AttributeError |
| Loader.AcceptedSnoc | weko_group_cache_db/loader.py:68-90 | processing one more record adds it to the kept list exactly when it validates and its files exist |
| Loader.SelectOkIff | weko_group_cache_db/loader.py:68-79 | the loop completes exactly when every record is a table; any other record raises out of the except handler |
| Loader.SelectKeepsAccepted | weko_group_cache_db/loader.py:68-94 | the loop keeps exactly the valid records whose files exist, in manifest order, and skips every other record |
| Loader.SkipsAreOrdered | weko_group_cache_db/loader.py:69-86 | skips are reported by 1-based ordinal, in increasing order; a skip is for invalidity exactly when the record does not validate |
| Loader.AcceptedMembers | weko_group_cache_db/loader.py:68-90 | an institution is loaded if and only if some record validates to it and its files exist |
| Loader.SelectErrSticky | weko_group_cache_db/loader.py:68-79 | once a record has raised, later records change nothing |
| Loader.LoadInstitutions | weko_group_cache_db/loader.py:21-94 | the loader's loop returns exactly the specification's selection, error cases included (a file that cannot be opened, a decode error, a missing or malformed section) |
| Loader.LoadFails | weko_group_cache_db/loader.py:38-94 | loading raises exactly when the file exists but cannot be opened (OSError), does not decode (ValueError), or lists a record that is not a table; a missing file gives no institutions |
| Groups.GroupIds | weko_group_cache_db/groups.py:188-190 | one id per entry that has one, at most as many as entries, none containing '/' |
| Groups.GroupIdsAppend | weko_group_cache_db/groups.py:188-190 | the comprehension distributes over concatenation: order is kept |
| Groups.GroupIdsAllIdentified | weko_group_cache_db/groups.py:188-190 | when every entry has an id, the i-th result is the last path segment of the i-th id |
| Groups.GroupIdsAnonymous | weko_group_cache_db/groups.py:188-190 | entries without ids contribute nothing |
| Groups.RequestFor | weko_group_cache_db/groups.py:178-184 | the request carries the institution's certificate and key and the configured timeout; when the connector id is one plain path segment, the URL's last segment is that id |
| Groups.FetchMapGroups | weko_group_cache_db/groups.py:168-192 | fails on transport failure or a 4xx/5xx status; otherwise succeeds exactly for a JSON object, giving its ids, or [] when `entry` is absent; every failure but a non-object body is retryable |
| Groups.CacheKey | weko_group_cache_db/groups.py:205-206 | the key is the fqdn with '.' and '-' replaced by '_', followed by the suffix |
| Groups.CacheKeySameIff | weko_group_cache_db/groups.py:205-206 | two fqdns share a cache key if and only if they underscore alike |
| Groups.WriteGroupsHealthy | weko_group_cache_db/groups.py:195-217 | on a healthy connection the write succeeds and changes only the one key. The hash gains `groups` and `updated_at` with other fields kept. A positive TTL sets the expiry, a negative one removes it, and zero deletes the record |
| Groups.CachedGroupsReadBack | weko_group_cache_db/groups.py:208-214 | after a write, `updated_at` is the timestamp and the `groups` field splits on ',' back into the ids written |
| Groups.WriteGroupsKeepsHealth | weko_group_cache_db/groups.py:212-217 | on a healthy connection the write issues exactly its commands: three (HSET, PERSIST, EXPIRE) for a TTL of at least 0 and two for a negative TTL, so a connection healthy for n + 3 commands stays healthy for n |
| Groups.WriteGroupsTwice | weko_group_cache_db/groups.py:195-217 | the last write wins: writing twice leaves the store as writing only the second list would |
| Groups.TwiceTtl | weko_group_cache_db/groups.py:215-217 | after two writes the key's expiry is the one the second write alone sets |
| Groups.TwiceDeleted | weko_group_cache_db/groups.py:216-217 | with a TTL of 0, two writes leave no record, as one does |
| Groups.WriteGroupsKeepsValid | weko_group_cache_db/groups.py:212-217 | the write keeps expiries only on existing keys, all positive |
| Groups.TwiceData | weko_group_cache_db/groups.py:212-214 | after two writes the record holds the second write's ids and timestamp |
| Groups.HealthyData | weko_group_cache_db/groups.py:212-214 | with a non-zero TTL the written record is the old hash's fields overridden by `groups` and `updated_at` |
| Groups.RecordOverrides | weko_group_cache_db/groups.py:212-214 | a later HSET of the two fields overrides an earlier one and keeps every other field |
| Groups.WriteGroupsOnList | weko_group_cache_db/groups.py:212-214 | on a key holding a list, HSET raises WRONGTYPE and nothing changes |
| Groups.PartialWriteLosesExpiry | weko_group_cache_db/groups.py:212-217 | a connection lost after PERSIST leaves the new record with no expiry at all |
| Groups.SetGroupsToRedis | weko_group_cache_db/groups.py:195-217 | HSET, PERSIST, EXPIRE on the connection, stopping at the first error, leave the store as the specification says |
| Groups.Attempt | weko_group_cache_db/groups.py:145-163 | a failed fetch touches no key and raises its error; a success returns the number of ids fetched |
| Groups.Retry | weko_group_cache_db/groups.py:135-149 | at least one and at most `REQUEST_RETRIES + 1` attempts; a retryable error comes out only after all of them; a success returns the number of ids the last attempt fetched |
| Groups.RetryLoop | weko_group_cache_db/groups.py:135-144 | the decorator around any attempt function makes at least one and at most `max_tries` attempts, and a retryable error comes out only after the last one |
| Groups.LoopTrace | weko_group_cache_db/groups.py:135-163 | the wrapper's outcome is exactly its last attempt (count or error), made on the store the earlier attempts left; every earlier attempt raised RequestException or RedisError; the last one did not, or was attempt `REQUEST_RETRIES` |
| Groups.LoopRecovers | weko_group_cache_db/groups.py:135-144 | after attempts that each failed retryably, the first attempt that does not ends the loop with its own outcome |
| Groups.LoopExhausted | weko_group_cache_db/groups.py:135-144 | when every attempt fails retryably and leaves the store alone, all attempts are made and the last error is raised |
| Groups.LoopDrains | weko_group_cache_db/groups.py:135-144 | when every attempt loses the connection on its first command, every remaining attempt is made, each spends one command, and the connection error is raised |
| Groups.RetryExhausted | weko_group_cache_db/groups.py:135-144 | when every fetch fails retryably, all attempts are made, the store is untouched and the last error is raised |
| Groups.RetryRecovers | weko_group_cache_db/groups.py:135-163 | after k attempts that each failed retryably, in the fetch or in the write, a success on attempt k over a healthy connection is written once and its count is returned after k + 1 attempts |
| Groups.RetryWriteAlwaysFails | weko_group_cache_db/groups.py:135-163 | when every fetch succeeds and every HSET fails on the connection, all `REQUEST_RETRIES + 1` attempts write, each spends one command, and the connection error is raised |
| Groups.RetryAfterMixedFailures | tests/test_groups.py:323-348 | with two retries, a failed fetch then a failed HSET then a clean attempt: the count is returned after three attempts, written once |
| Groups.RetryStopsOnOtherErrors | weko_group_cache_db/groups.py:135-144 | an error outside RequestException and RedisError ends the retries at once |
| Groups.RetrieveFetchAndCache | weko_group_cache_db/groups.py:145-163 | one attempt on the connection behaves as the specification's attempt |
| Groups.FetchAndCache | weko_group_cache_db/groups.py:125-165 | the decorated function's retry loop returns the specification's outcome and attempt count |
| Groups.Wrap | weko_group_cache_db/groups.py:72 | the code's `WekoGroupCacheDbError(fqdn, origin=ex)` raises TypeError; the intended recording is an UpdateError naming the fqdn |
| Groups.CountErr | weko_group_cache_db/groups.py:79-82 | counts failures, never more than there are outcomes, zero exactly when all succeeded |
| Groups.Expected | weko_group_cache_db/groups.py:67-74 | one UpdateError with an origin per failed institution |
| Groups.VisitIntended | weko_group_cache_db/groups.py:59-77 | one iteration appends the wrapper's outcome. Only a non-retryable error escapes. A retryable failure is recorded as an UpdateError naming the institution. A pause follows every institution but the last |
| Groups.BatchIntended | weko_group_cache_db/groups.py:59-77 | unless a non-retryable error escapes, every institution is attempted in order, the failures are exactly the expected UpdateErrors, and there are n - 1 pauses |
| Groups.FetchAllIntended | weko_group_cache_db/groups.py:30-82 | `fetch_all` succeeds if and only if every wrapper returned; otherwise it raises one aggregate naming the count and holding one UpdateError per failure, in order |
| Groups.DownRetry | weko_group_cache_db/groups.py:135-144 | with the API down, the wrapper leaves the store alone and re-raises a retryable error |
| Groups.BatchAsWrittenStopsEarly | weko_group_cache_db/groups.py:72 | as written, the first retry-exhausted institution stops `fetch_all` with TypeError before the next is fetched; as intended, both are visited and both failures collected |
| Groups.RecordIntended | weko_group_cache_db/groups.py:59-77 | the loop body, given the wrapper's outcome, appends it; a non-retryable error escapes; a retryable one becomes an UpdateError naming the institution; a pause follows all but the last |
| Groups.ShippedWrapperEscapes | weko_group_cache_db/groups.py:135-140 | as shipped, reading the missing wait settings raises AttributeError before any attempt: `fetch_all` stops at the institution with no failure recorded, no pause and the store unchanged, and `fetch_one` raises it; with the settings defined the wrapper makes at least one attempt and raises that error only when an attempt did |
| Groups.RunFetchAll | weko_group_cache_db/groups.py:30-82 | the loop with its sleeps leaves the store, result and pause count the specification gives |
| Groups.BatchEscapeSticky | weko_group_cache_db/groups.py:70-72 | once an error escapes, the remaining institutions change nothing |
| Groups.FindFirst | weko_group_cache_db/groups.py:103-105 | `next(...)` finds the first institution with the fqdn, and none exactly when no institution has it |
| Groups.FetchOneIntended | weko_group_cache_db/groups.py:85-122 | an unknown fqdn raises the not-found ValueError and leaves the store alone; otherwise only the first match runs, with success exactly when the wrapper succeeded, and an exhausted failure raised as an UpdateError naming the fqdn |
| Groups.FetchOneAsWritten | weko_group_cache_db/groups.py:113-122 | as written, an exhausted failure surfaces as TypeError; as intended, as UpdateError |
| Groups.RunFetchOne | weko_group_cache_db/groups.py:85-122 | the method returns and leaves the store as the intended specification says |
| LegacyUtils.OldVisitAccounts | weko_group_cache_db/utils.py:51-68 | one iteration keeps the exit-code invariant: 0 exactly when all attempts so far succeeded, else 1 |
| LegacyUtils.OldBatchCode | weko_group_cache_db/utils.py:39-70 | a failure does not stop the old loop: every institution is attempted once, and the code is 0 exactly when all succeeded; only a non-RequestException, non-RedisError error escapes |
| LegacyUtils.OldBatchEscapeSticky | weko_group_cache_db/utils.py:57-66 | once an error escapes, the remaining institutions change nothing |
| LegacyUtils.RunOldFetchAll | weko_group_cache_db/utils.py:27-70 | the loop with its `code` variable returns the specification's code or error and store |
| LegacyUtils.OldFetchOneFacts | weko_group_cache_db/utils.py:73-106 | an unknown fqdn returns normally and issues no command; otherwise exactly one attempt for the first match, successful only when fetch and write both were, errors raised unchanged |
| LegacyUtils.RunOldFetchOne | weko_group_cache_db/utils.py:73-106 | the method behaves as that specification |
| Redis.Db.Next | weko_group_cache_db/groups.py:212-217 | issuing a command consumes one fault-script entry and changes no key |
| Redis.CommandsKeepValid | weko_group_cache_db/groups.py:212-217 | every command keeps expiries only on existing keys |
| Redis.NextHealthy | weko_group_cache_db/groups.py:212-217 | a connection healthy for n + 1 commands is healthy for n after one |
| Redis.Store.TakeFault | weko_group_cache_db/groups.py:212-217 | consumes one entry of the fault script and reports it |
| Redis.Store.Hset | weko_group_cache_db/groups.py:212-214 | HSET on the connection changes the store exactly as the value-level command |
| Redis.Store.Persist | weko_group_cache_db/groups.py:215 | PERSIST on the connection changes the store exactly as the value-level command |
| Redis.Store.Expire | weko_group_cache_db/groups.py:216-217 | EXPIRE on the connection changes the store exactly as the value-level command |
| Redis.Store.Lrange | app/new-group/new_group/utils.py:26 | LRANGE on the connection changes the store exactly as the value-level command |
| Redis.Store.Rpush | app/new-group/new_group/utils.py:31 | RPUSH on the connection changes the store exactly as the value-level command |
| Strings.Find | app/new-group/new_group/utils.py:20 | `str.index`: the first position of the pattern, or none exactly when it does not occur |
| Strings.Underscored | weko_group_cache_db/groups.py:205 | same length; '.' and '-' become '_', every other character is kept |
| Strings.UnderscoredIdempotent | weko_group_cache_db/groups.py:205 | underscoring twice is underscoring once |
| Strings.SplitJoin | weko_group_cache_db/groups.py:213 | splitting the comma-joined ids on ',' gives the ids back when none contains a comma |
| Strings.JoinSplit | weko_group_cache_db/groups.py:213 | joining the pieces of a split with the separator gives the original string back |
| Strings.ReplaceChar | weko_group_cache_db/groups.py:205 | `str.replace` of one character: same length, each occurrence replaced and every other character kept |
| Strings.NatToString | weko_group_cache_db/groups.py:80-82 | `%d` of a count: a non-empty string of decimal digits that reads back as the count |
| Strings.NatToStringBeforeText | weko_group_cache_db/groups.py:80-82 | a count written before text that does not open with a digit can be read back: equal strings name equal counts |
| Groups.AggregateMessageNamesCount | weko_group_cache_db/groups.py:80-82 | two aggregate messages are equal exactly when they name the same number of failed institutions |
| Exc.GroupStrNamesCount | weko_group_cache_db/groups.py:82 | two exception groups with the same message print alike only if they hold the same number of sub-exceptions |
| Strings.LastSegmentIsTail | weko_group_cache_db/groups.py:189 | the last segment is a suffix of the id, preceded by '/' when shorter than it |
| Strings.Dir | weko_group_cache_db/groups.py:178 | the base's directory: it ends in '/' when non-empty, and with the last segment it makes up the base |
| Strings.LastSegment | weko_group_cache_db/groups.py:189 | `split('/')[-1]`: the part after the last '/' |
| Strings.LastSegmentOfPlain | weko_group_cache_db/groups.py:189 | a string without '/' is its own last segment |
| GetGroups.FindSpFrom | app/get-groups/get_groups/utils.py:40-43 | a match is an entry naming the fqdn; an entry without `org_sp_fqdn` raises KeyError |
| GetGroups.FindSpFirst | app/get-groups/get_groups/utils.py:40-45 | the search selects the first entry naming the fqdn, finds none exactly when every entry names another, and raises KeyError exactly when an entry without `org_sp_fqdn` comes before any match |
| GetGroups.FailingGuard | app/get-groups/get_groups/utils.py:46-55 | none exactly when all five checks pass; otherwise the first check, in code order, that fails |
| GetGroups.GakuninRequest | app/get-groups/get_groups/utils.py:56-58 | the request passes the certificate and key and no timeout; when the connector id is one plain path segment, the URL's last segment is that id |
| GetGroups.EntriesOf | app/get-groups/get_groups/utils.py:59-60 | succeeds exactly for a non-error JSON object with `entry`, giving it; a missing `entry` raises KeyError; transport or 4xx/5xx failures raise RequestException |
| GetGroups.RequestOnlyAfterChecks | app/get-groups/get_groups/utils.py:29-60 | the API can affect the outcome only for a configured fqdn whose first matching settings pass every check |
| GetGroups.FirstFailingCheckDecides | app/get-groups/get_groups/utils.py:46-55 | the first failing check decides the error, whatever the API would answer |
| GetGroups.KeyCheckMessages | app/get-groups/get_groups/utils.py:52-55 | as shipped, the two client-key checks raise AttributeError; with the templates completed every check raises a plain exception and the five messages differ |
| GetGroups.GetGroupsFromGakunin | app/get-groups/get_groups/utils.py:29-60 | the for/break search, the checks and the request return the specification's result |
| GetGroups.GroupIdList | app/get-groups/get_groups/utils.py:19-21 | one id per entry, or KeyError("id") |
| GetGroups.GroupIdListAgrees | app/get-groups/get_groups/utils.py:19-21 | succeeds exactly when every entry has an id, and then agrees with the newer extraction of groups.py |
| GetGroups.GroupIdListErrSticky | app/get-groups/get_groups/utils.py:19-21 | a missing id stops the extraction for good |
| GetGroups.CollectGroupIds | app/get-groups/get_groups/utils.py:19-21 | the append loop computes the specification's list or error |
| GetGroups.LegacyWriteHealthy | app/get-groups/get_groups/utils.py:62-77 | on a healthy connection only `fqdn + suffix` changes. The record gains both fields and the expiry when the TTL is positive, and is deleted otherwise |
| GetGroups.WritersDisagreeOnNegativeTtl | app/get-groups/get_groups/utils.py:76-77 | on a negative TTL the two writers share a key but the newer keeps the record forever and this one deletes it |
| GetGroups.SetGroupsStoresIds | app/get-groups/get_groups/utils.py:10-27 | `set_groups` succeeds exactly when the fetch succeeds and every entry has an id; then the `groups` field joins the ids in order under the underscored key with the configured expiry; on failure no command is issued |
| GetGroups.SetGroupsToRedis | app/get-groups/get_groups/utils.py:62-77 | HSET then EXPIRE on the connection, as the specification says |
| GetGroups.SetGroups | app/get-groups/get_groups/utils.py:10-27 | fetch, extraction and write on the connection, as the specification says |
| NewGroup.FindAt | app/new-group/new_group/utils.py:20 | `index` returns a match position with no match before it |
| NewGroup.ParseRecoversFqdn | app/new-group/new_group/utils.py:16-21 | a well-formed `prefix + fqdn + group_suffix + ...` id parses back to its fqdn |
| NewGroup.ParseRecoversFqdnFromRole | app/new-group/new_group/utils.py:16-24 | a role id without `_groups_` parses back to its fqdn |
| NewGroup.ParseAcceptsExactly | app/new-group/new_group/utils.py:16-17 | an id is accepted exactly when it starts with the prefix and contains one of the suffixes |
| NewGroup.SysAdminGroupParsesEmpty | app/config/config/config.py:13-18 | the system admin group `jc_roles_sys` is accepted and parses to the empty fqdn |
| NewGroup.ConfiguredFqdns | app/new-group/new_group/utils.py:33-34 | succeeds exactly when every entry has `org_sp_fqdn`, giving each underscored in order; otherwise KeyError |
| NewGroup.PushAppends | app/new-group/new_group/utils.py:29-31 | RPUSH of an absent id changes only that key's list; on a live connection and a key that does not hold a hash the list gains the id at its end and "is set" is logged, otherwise the list stays and the Redis error is raised |
| NewGroup.RegisterKeepsValid | app/new-group/new_group/utils.py:25-31 | registration keeps expiries only on existing keys, all positive |
| NewGroup.RegisterFrame | app/new-group/new_group/utils.py:6-43 | a malformed id issues no command and logs "not set"; otherwise only the one key's list may change, by gaining the id once at its end |
| NewGroup.RegisterDecides | app/new-group/new_group/utils.py:25-38 | a non-empty list gains the id exactly when it lacks it; an empty list gains it exactly when the fqdn is configured; a missing `org_sp_fqdn` raises KeyError; as written, success logs "set" |
| NewGroup.RegisterLogsSetWithoutPush | app/new-group/new_group/utils.py:32-38 | as written, an empty list for an unconfigured fqdn logs "is set" while the id is not stored |
| NewGroup.RegisterLogsTruthfully | app/new-group/new_group/utils.py:28-41 | under the intended rule, a successful registration logs "is set" exactly when the id is in the list afterwards and "is not set" exactly when it is not |
| NewGroup.CacheRecordBlocksRegistration | app/new-group/new_group/utils.py:25-26 | after get-groups has cached an fqdn's groups as a hash, registering a group id for it raises WRONGTYPE and changes nothing |
| NewGroup.SetGroupId | app/new-group/new_group/utils.py:6-43 | LRANGE and at most one RPUSH on the connection give the specification's store, result and log line, under either log rule |
| Tasks.GroupsTaskReraises | weko_group_cache_db/tasks.py:26-37 | the task returns or re-raises exactly what `set_groups` did, and logs success exactly when it returned |
| Tasks.SetGroupsTask | weko_group_cache_db/tasks.py:26-37 | the method behaves as that specification |
| Tasks.DefinedFqdns | weko_group_cache_db/tasks.py:16-20 | the non-empty fqdns in key order, at most one per provider |
| Tasks.TaskLoopProcesses | weko_group_cache_db/tasks.py:13-23 | with no failure, every defined fqdn is processed in key order; on failure, the loop stopped right after the first failing provider |
| Tasks.TaskLoopFailureSticky | weko_group_cache_db/tasks.py:15-23 | after a failure the remaining providers change nothing |
| Tasks.CreateTasksConcludes | weko_group_cache_db/tasks.py:9-24 | the last line is the success message exactly when every task succeeded, having processed all defined fqdns; otherwise it is the failure message and the first error is raised |
| Tasks.CreateSetGroupsTask | weko_group_cache_db/tasks.py:9-24 | the for loop inside one try block gives the specification's store, result and log lines |

## Left out

- Connection set-up (`redis.py`, `redis_conn.py`, sentinel and URL handling) is not modelled. A connection is the `Redis.Store` handed in.
- Settings loading and environment variables are not modelled. The settings are a value.
- Logging, rich progress bars and console output are not modelled. The app services' log lines are returned as sequences of strings; the package's loggers are dropped.
- Backoff delays and jitter are not modelled. `fetch_all`'s `sleep(REQUEST_INTERVAL)` calls are counted, not timed.
- The clock is a timestamp parameter. Time passing in Redis, where an expiry elapses, is not modelled.
- Http.UrlJoin: only a base of the form `scheme://netloc/path` or a bare path, joined with a path reference, is modelled; that is how the code calls it. Queries, fragments and `;params` on either side, network-path references (`//host`), references with their own scheme, and scheme-specific rules (schemes that `urljoin` does not join) are not modelled. The netloc is taken to end at the first '/' after the first `://`. The last-segment promise is stated only for a connector id that is one plain segment; an id holding '/', '?' or '#', or a dot segment, has no such promise.
- TOML values other than strings, and non-table records, are abstract. The loader reports a non-table record's `.get` as AttributeError.
- Path normalisation is not modelled. A path exists when it is in the given set.
- The command-line interface (`cli.py`), the Flask endpoint (`api.py`), the Celery wiring (`groups_celery.py`, `app.py`) and the app's own `tasks.py` are not part of this model.
- The directory-source variant of the loader is not part of this model.
- new-group's byte decoding of LRANGE results is not modelled. List elements are strings.
- `weko_group_cache_db/tasks.py` imports `set_groups` from `.utils` and reads `config.SP_AUTHORIZATION_DICT` and `messages`, none of which its package defines. The model runs it over the get-groups service's `set_groups` and the app's settings and messages.
- Groups.Retry: it is the wrapper with REQUEST_RETRY_BASE, REQUEST_RETRY_FACTOR and REQUEST_RETRY_MAX defined. The settings as shipped lack them (see Findings), and then the wrapper is Groups.ShippedRetry.
- Groups.Retry: `REQUEST_RETRIES` is a plain int (config.py:57), but `requestRetries` in Groups.Config is a nat. A negative value gives backoff a `max_tries` of 0 or less, which it never reaches, so the code retries forever. Groups.Retry and Groups.FetchAndCache do not model that unbounded case.
- Groups.FetchMapGroups: a JSON body is modelled as absent, non-JSON, a non-object, or an object with an optional `entry`. Entries without `id`, and non-string ids, collapse into "no id".

## Findings

| source | as written | input that shows it | evidently intended | confidence | as-written member | corrected member |
|---|---|---|---|---|---|---|
| weko_group_cache_db/groups.py:72 | `WekoGroupCacheDbError(institution.fqdn, origin=ex)`: `Exception` takes no keyword arguments, so building it raises TypeError and `fetch_all` stops at the first retry-exhausted institution | two institutions with the API unreachable: the first fails every retry, TypeError escapes, and the second is never fetched | record `UpdateError(fqdn, ex)` and carry on, reporting all failures in one aggregate | not executed | Groups.BatchAsWrittenStopsEarly | Groups.FetchAllIntended |
| weko_group_cache_db/groups.py:122 | the same construction in `fetch_one` | a known fqdn with the API unreachable: TypeError instead of an error naming the institution | raise `UpdateError(fqdn, ex)` | not executed | Groups.FetchOneAsWritten | Groups.FetchOneIntended |
| weko_group_cache_db/groups.py:136-140 | the decorator builds its wait generator from `config.REQUEST_RETRY_BASE`, `REQUEST_RETRY_FACTOR` and `REQUEST_RETRY_MAX`, which `Settings` (weko_group_cache_db/config.py:27-98) does not define, with `extra="forbid"`; the generator is built at the start of every wrapped call, so AttributeError escapes before the first attempt | `fetch_all` over any manifest with one institution: AttributeError on the first institution, no GET issued, nothing cached | three wait settings in `Settings`, so that the wrapper retries as documented | not executed | Groups.ShippedWrapperEscapes | Groups.Retry |
| app/get-groups/get_groups/utils.py:52-55 | the client-key checks format `messages.TLS_CLIENT_KEY_NOT_FOUND` and `TLS_CLIENT_KEY_FILE_NOT_FOUND`, which app/config/config/messages.py:1-21 does not define | a provider whose `tls_client_key` is empty: AttributeError instead of the check's message | two templates worded like the client-certificate ones, each check raising its own message | not executed | GetGroups.KeyCheckMessages | GetGroups.FirstFailingCheckDecides |
| app/new-group/new_group/utils.py:38 | `GROUP_ID_SET` is logged for every well-formed id, also when the list is empty and the fqdn is not configured, so nothing is pushed; app/new-group/tests/test_utils.py:71-87 expects "is not set" there | `jc_test_org_groups_example` with an empty list and only `xxxx` configured: the log says the id is set, the list stays empty | log `GROUP_ID_NOT_SET` when nothing is stored | not executed | NewGroup.RegisterLogsSetWithoutPush | NewGroup.RegisterLogsTruthfully |
