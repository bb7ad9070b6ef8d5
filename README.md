# tap-shareasale core, modelled in Dafny

This project models the incremental-sync core of the ShareASale connector
(`tap_shareasale`):

- the **day-chunk paginator**, a cursor over a date range that advances 28
  days per page until one more step would reach the end date;
- the **request builders**: the signed `X-ShareASale-*` header map and the
  query-parameter map sent with each page;
- **record normalisation**. The base stream's `post_process` replaces spaces
  in column names with underscores. `set_none_or_cast` turns `""`/`None` into
  `None` and casts anything else to the column's type. The activity stream's
  `post_process` then runs a cast table (nine `int`/`float` fields), a date
  table (four fields re-rendered in one canonical format) and sets
  `Reference_Trans` to `""`.

Modules, one per file:

- `Values` (`values.dfy`): cell values (`Str | Int | Num | Null`), Python
  types, errors, `Option`/`Result`, and the float conversions as parameters.
- `Dicts` (`dicts.dfy`): a Python `dict` as an ordered list of pairs. It
  keeps insertion order, and assigning to an existing key overwrites that
  key in place.
- `Decimal` (`decimal.dfy`): Python `int()` on decimal strings, and its
  inverse rendering.
- `Paginator` (`paginator.dfy`): the `DayChunkPaginator` class, with the
  framework's `advance` as a method.
- `Client` (`client.py`'s stream base class): `set_none_or_cast`, key
  clean-up, `http_headers`, `get_url_params`.
- `Streams` (`streams.py`): `ActivityStream.post_process`. It is specified by
  the function `Activity` and implemented by a method with the source's loops.
- `ActivityExamples` (`activity_example.dfy`): a worked record through the
  whole normalisation.

Datetimes are integer counts of microseconds, so `timedelta(days=n)` is
`n * 86_400_000_000`.

The following foreign or non-deterministic inputs are parameters of the
operations that use them:

- `datetime.today()`;
- the `gmtime` timestamp string;
- SHA-256;
- the datetime-to-calendar-date conversion;
- `float()`;
- pendulum's parse-and-reformat, which may fail.

Python exceptions become `Err` results:

- `int()` or `float()` on a bad string gives `CastError`;
- pendulum rejecting a date gives `DateFormatError`;
- concatenating a missing credential into the signature (a `TypeError` in
  Python) gives `MissingConfig`.

## Model

| member | source | states |
|---|---|---|
| Client.SetNoneOrCast | tap_shareasale/client.py:80-86 | `""` and `None` give `None`; a value that already has the type passes through unchanged; otherwise the result is the cast. For `int` it succeeds iff the string is a decimal integer and gives that integer. For `float` it succeeds iff the float parse succeeds. A float in an `int` field and an integer in a `float` field are converted by the float conversions, with the same iff. Any success is `None` or of the requested type, and failure is a `CastError` on exactly the uncastable values. The copy at streams.py:11-17 is the same code and is modelled by this one member. |
| Client.Cast | tap_shareasale/client.py:83-84 | `expected_type(value)`, case by case. `int(s)` succeeds iff `s` is a decimal integer and gives it. `int(f)` succeeds iff the float-to-int conversion does and gives its result. `float(s)` and `float(i)` likewise follow the float parse and the int-to-float conversion. An already-typed value is returned as is, `None` raises, and every failure is a `CastError` naming the value and the type. |
| Client.SetNoneOrCastIdempotent | tap_shareasale/client.py:80-86 | applying `set_none_or_cast` to its own successful result gives the same result |
| Client.SetNoneOrCastExamples | tap_shareasale/client.py:80-86 | `""` gives `None` for both types; `"123"` and `123` both give `123` for `int`; `"abc"` for `int` is an error |
| Decimal.ParseInt | tap_shareasale/client.py:84 | `int(s)` succeeds exactly on an optional sign followed by one or more ASCII digits |
| Decimal.ParseShow | tap_shareasale/client.py:84 | `int(str(n)) == n` for every integer `n` |
| Decimal.ParseIntDigits | tap_shareasale/client.py:84 | a digit string, and the same with a leading `-`, parse to its decimal value and the negation of that value |
| Decimal.ParseIntRejects | tap_shareasale/client.py:84 | a non-digit anywhere other than a leading sign makes `int()` fail |
| Decimal.ParseIntExamples | tap_shareasale/streams.py:150-163 | `"123"`, `"55"` and `"-7"` parse; `"abc"`, `""` and `"12.50"` do not |
| Dicts.SetGet | tap_shareasale/client.py:172 | after `d[k] = v`, looking up `k` gives `v` and every other key reads as before |
| Dicts.SetKeys | tap_shareasale/client.py:172 | `d[k] = v` adds `k` to the key set. An existing key keeps its position; a new key is appended last. Keys stay unique. |
| Dicts.Set | tap_shareasale/client.py:172 | defines `d[k] = v` on the ordered pair list: an existing key is overwritten in place, a new key is appended; `SetGet` and `SetKeys` state its properties |
| Client.NormalizeKey | tap_shareasale/client.py:172 | `key.replace(" ", "_")`: same length, each space becomes `_`, every other character is kept, and no space remains |
| Client.NormalizeKeyFixes | tap_shareasale/client.py:172 | the replacement is idempotent, and the identity on keys without spaces |
| Client.Cleaned | tap_shareasale/client.py:170-173 | defines the base-class clean-up: the entries, in iteration order, assigned into an empty dict under their normalised keys; `CleanedKeys`, `CleanedLastWins` and `CleanedNoCollision` state its properties |
| Client.CleanedKeys | tap_shareasale/client.py:170-173 | the output's keys are exactly the normalised input keys (both directions). No output key contains a space, keys are unique, and the output is no longer than the input. |
| Client.CleanedLastWins | tap_shareasale/client.py:170-173 | when several input keys normalise to one name, the output holds the value of the last of them; a value is carried over unchanged |
| Client.CleanedNoCollision | tap_shareasale/client.py:170-173 | when no two keys collide, the output is the input with each key normalised, same order, same values |
| Client.PostProcess | tap_shareasale/client.py:156-173 | the loop builds the clean-up function's result, with the key properties above |
| Client.Signature | tap_shareasale/client.py:116 | defines the signed string `token + ":" + timestamp + ":" + action + ":" + secret`; `SignatureDeterminesTimestamp` states what it determines |
| Client.SignatureDeterminesTimestamp | tap_shareasale/client.py:116 | with token, action and secret fixed, equal signed strings have equal timestamp strings, so different timestamp strings give different signed strings. The timestamp counts whole seconds (client.py:114), so two requests sent within one second sign the same string. |
| Client.HttpHeaders | tap_shareasale/client.py:102-120 | the call fails iff the token or the secret is missing. On success the keys are unique and are `User-Agent` (only when configured), `X-ShareASale-Date`, `X-ShareASale-Authentication`, in that order. `User-Agent` is the configured agent. The date header is the timestamp that was signed. The authentication header is the SHA-256 hex of `token:timestamp:name:secret`. |
| Client.SignedHeaders | tap_shareasale/client.py:118-119 | the two assignments append the date and authentication headers after the optional user agent |
| Client.HeaderEntries | tap_shareasale/client.py:109-119 | in that header list the keys are unique and each header reads back the value it was assigned |
| Client.FormatYmd | tap_shareasale/client.py:136-137 | defines `strftime(date, "%Y-%m-%d")` with zero-padded fields and states the rendering has at least ten characters; `FormatYmdRoundTrip` states it reads back |
| Client.FormatYmdRoundTrip | tap_shareasale/client.py:136-137 | for years 0-9999, `%Y-%m-%d` gives ten characters with dashes at positions 4 and 7. Its three fields parse back to the year, month and day, so the rendering is never empty. |
| Client.ConfigValue | tap_shareasale/client.py:131-133 | defines `self.config.get(key)`: the configured string, or `None` when the key is missing; `UrlParams` states where it is used |
| Client.UrlParams | tap_shareasale/client.py:125-140 | the parameters are `affiliateId`, `token`, `version`, `action`, `dateStart` in that order, with unique keys. The first three are the configured values (or `None`), `action` is the stream name, and `dateStart` is always set to the `%Y-%m-%d` rendering of the page date. |
| Paginator.DayChunkPaginator.constructor | tap_shareasale/client.py:25-35 | the cursor starts at the start date, the end is "today", and the increment is as given |
| Paginator.DayChunkPaginator.HasMore | tap_shareasale/client.py:62-77 | defines `has_more` as exactly `current + increment < end`, with no dependence on the response; `GetNext` and `Advance` state its consequences |
| Paginator.DayChunkPaginator.GetNext | tap_shareasale/client.py:55-77 | there is a next value iff `current + increment < end`, and then it is `current + increment`. It is strictly below `end`, and strictly above `current` exactly when the increment is positive. |
| Paginator.DayChunkPaginator.Advance | tap_shareasale/client.py:55-77 | the cursor moves to `get_next()`, or the paginator is marked finished and the cursor stays. A move keeps the cursor below `end`; with a positive increment it strictly increases the cursor and decreases `end - current`. The windows still ahead lose exactly the one just left. |
| Paginator.Windows | tap_shareasale/client.py:62-77 | defines the cursor values repeated advancing visits from a start, up to the first `w` with `w + step >= end`; `WindowsShape` and `WindowsCount` state its shape |
| Paginator.WindowsShape | tap_shareasale/client.py:62-77 | advancing from `d` visits `d, d+step, d+2·step, …`. Every window after the first is before `end`, and the run stops at the first window `w` with `w + step >= end`. |
| Paginator.WindowsCount | tap_shareasale/client.py:62-77 | the number of pages is the least `n >= 1` with `d + n·step >= end`, and it is 1 iff `d + step >= end` at the start |
| Paginator.ExhaustedAtStart | tap_shareasale/client.py:122-123 | with the 28-day increment, a start ten days before the end gives exactly one page, and the cursor does not move |
| Paginator.NewStreamPaginator | tap_shareasale/client.py:122-123 | the stream's paginator starts at the configured date, with a 28-day increment, unfinished, and its first window is the start date |
| Streams.TablesWellFormed | tap_shareasale/streams.py:149-181 | the cast table and the date table each name distinct fields, and neither shares a name with the other or with `Reference_Trans` |
| Streams.CastField | tap_shareasale/streams.py:160-163 | defines one step of the cast loop: a present field is replaced by its `set_none_or_cast`, an absent one is skipped; `CastFieldFacts` states its effect |
| Streams.CastFields | tap_shareasale/streams.py:149-163 | defines the cast loop over a table, stopping at the first failure; `CastFieldsFrame`, `CastFieldsAt`, `CastFieldsFails` and `CastFieldsSucceeds` state its properties |
| Streams.CastFieldsFrame | tap_shareasale/streams.py:149-163 | a successful cast pass keeps the key order and key set, and fields outside the table keep their values |
| Streams.CastFieldsAt | tap_shareasale/streams.py:160-163 | after the cast pass, a table field that was absent is still absent, and a present one holds `set_none_or_cast` of its old value with the table's type |
| Streams.CastFieldsFails | tap_shareasale/streams.py:162-163 | one present field that cannot be cast makes the pass fail |
| Streams.CastFieldsSucceeds | tap_shareasale/streams.py:149-163 | the pass succeeds when every present table field can be cast |
| Streams.ReformatValue | tap_shareasale/streams.py:170-180 | `None` and `""` are left as they are. A non-empty string is replaced by the reformatted date, and the call fails iff pendulum rejects the string for the field's format. A number cannot be parsed. |
| Streams.ReformatField | tap_shareasale/streams.py:170-180 | defines one step of the date loop: a present field that is not `None` or `""` is replaced by its reformatting; `ReformatFieldFacts` states its effect |
| Streams.ReformatDates | tap_shareasale/streams.py:164-180 | defines the date loop over a table, stopping at the first failure; `ReformatDatesFrame`, `ReformatDatesAt`, `ReformatDatesFails` and `ReformatDatesSucceeds` state its properties |
| Streams.ReformatDatesFrame | tap_shareasale/streams.py:164-180 | a successful date pass keeps the key order and key set, and fields outside the table keep their values |
| Streams.ReformatDatesAt | tap_shareasale/streams.py:170-180 | after the date pass, an absent date field is still absent, and a present one holds the reformatting of its old value |
| Streams.ReformatDatesFails | tap_shareasale/streams.py:170-180 | one present date field that pendulum rejects makes the pass fail |
| Streams.ReformatDatesSucceeds | tap_shareasale/streams.py:164-180 | the pass succeeds when every present date field can be reformatted |
| Streams.Normalize | tap_shareasale/streams.py:148-182 | defines the activity normalisation for a cast table and a date table: clean-up, cast loop, date loop, then `Reference_Trans := ""`; the `Normalize*` lemmas below state its properties |
| Streams.Activity | tap_shareasale/streams.py:134-182 | `Normalize` with the stream's own nine-field cast table and four-field date table; `PostProcess` is proved equal to it |
| Streams.NormalizeReferenceTrans | tap_shareasale/streams.py:181 | every record produced has `Reference_Trans == ""`, whatever the input |
| Streams.NormalizeKeys | tap_shareasale/streams.py:148-182 | the output's keys are unique and are the clean-up's keys plus `Reference_Trans`; `Reference_Trans` is appended last unless it was already present |
| Streams.NormalizeCastField | tap_shareasale/streams.py:148-163 | a cast-table field absent after clean-up stays absent. A present one holds `set_none_or_cast` of its value. `""` becomes `None`. A non-empty string in an `int` field is a decimal integer and becomes that integer. |
| Streams.NormalizeDateField | tap_shareasale/streams.py:164-180 | an absent date field stays absent. `None` and `""` are untouched. A non-empty string is replaced by its reformatting, which must succeed. |
| Streams.NormalizeOtherField | tap_shareasale/streams.py:148-182 | every field outside the two tables and `Reference_Trans` keeps the value the base-class clean-up gave it |
| Streams.NormalizeSucceedsIff | tap_shareasale/streams.py:149-180 | a record is produced iff every present cast field can be cast and every present date field can be reformatted (both directions) |
| Streams.ActivityRejectsNonNumeric | tap_shareasale/streams.py:150-163 | a non-empty, non-decimal string in an `int` field (such as `"abc"` for `Trans_ID`) is an error, not a silent `None` |
| Streams.PostProcess | tap_shareasale/streams.py:134-182 | the method with the source's loops returns the activity normalisation of the row. On success `Reference_Trans` is `""` and the key set is the clean-up's plus `Reference_Trans`. |
| Streams.CastPass | tap_shareasale/streams.py:149-163 | the cast loop returns what the cast pass specifies |
| Streams.DatePass | tap_shareasale/streams.py:164-180 | the date loop returns what the date pass specifies |
| ActivityExamples.ActivityThreeColumns | tap_shareasale/streams.py:134-182 | a row with columns `Trans ID`, `User ID`, `Trans Amount` holding two decimal integers and a float string becomes `Trans_ID` and `User_ID` as integers, `Trans_Amount` as the parsed float, then `Reference_Trans = ""` |
| ActivityExamples.ExampleCells | tap_shareasale/streams.py:150-153 | the cells `55`, `9`, `12.50` meet that lemma's requirements, and the integers read are 55 and 9 |

## Left out

- `parse_response` (client.py:142-154): `csv.DictReader` decoding is not modelled. Rows enter the model already decoded, as ordered lists of (column, value) pairs.
- pendulum's `from_format(...).format(...)` (streams.py:175-180) is a parameter that may fail. The date formats are passed to it as strings and are not interpreted.
- `float(...)` for `Trans_Amount` and `Commission` is a parameter over an opaque 64-bit value. Truncation by `int()` of a float is a parameter too.
- SHA-256, `gmtime`/`strftime` and `datetime.today()` (client.py:34, 114, 117) are parameters. The `strptime` of the start date (client.py:33) is not modelled: the paginator takes the parsed datetime.
- Client.HttpHeaders: a missing `auth_token` or `api_secret_key` raises `TypeError` in Python. The model reports it as `MissingConfig` instead. The `user_agent` value is taken as a string.
- Paginator.DayChunkPaginator.Advance: the framework's real `advance()` is in the SDK and is not part of this model. It also checks that the cursor moved and raises if not. The model keeps only its documented effect: move to `get_next()` or finish. With an increment of 0 or less, the model states the bound but not the termination.
- `url_base`, `records_jsonpath`, `next_page_token_jsonpath`, the activity stream's `next_page_token`, and the JSON schema literal (streams.py:25-132) are configuration constants outside the normalisation, so they are not modelled. HTTP transport and `RESTStream` internals are not modelled either.
- `tap.py` (config schema, stream discovery, CLI) and `tests/test_core.py` are framework glue and are not part of this model.
- `post_process` on a row with extra cells (client.py:171-172): `csv.DictReader` files the extra cells of a row longer than its header under the key `None`, and `None.replace(" ", "_")` then raises `AttributeError`. Row keys in this model are always strings, so that failure is not captured.
- Paginator.DayChunkPaginator.GetNext: `current_value + timedelta(...)` (client.py:57, 72-75) raises `OverflowError` past 9999-12-31. Datetimes here are unbounded integers, so a cursor that close to the limit finishes instead of raising.
- Decimal.ParseInt: it does not accept the surrounding whitespace, underscores or non-ASCII digits that Python's `int()` also accepts.
- Client.FormatYmdRoundTrip: it assumes a four-digit year. The model pads years below 1000 to four digits; some C libraries render them shorter.
- Client.UrlParams: configuration values are strings or missing. Other JSON types from the config file are not modelled.
