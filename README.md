# polygon-cache: the cache filter

`polygon_cache` wraps the Polygon market-data REST client in an on-disk HTTP
cache. Each response the cache sees goes through
`CachedRESTClient._cache_filter`, which decides if the response may be stored
permanently. This project models that decision and proves its properties.

The filter decodes the response body. It then runs an ordered list of rules.
Today the list holds one rule. That rule reads the body's `from` field and
parses it with `datetime.strptime(..., '%Y-%m-%d')`. It answers "cacheable"
exactly when that date is strictly before today's local date. A rule raising
`KeyError` passes the decision to the next rule. Any other outcome, whether a
verdict or another exception, ends the filter. When no rule is left, the
answer is `False`.

Modules:

- `Results` (`results.dfy`): `Option` and `Result`.
- `Json` (`json.dfy`): the decoded body, as a JSON value.
- `Calendar` (`calendar.dfy`): `date`/`datetime` values, the Gregorian month
  lengths, and `<` on dates. The ordinal (`date.toordinal()`) serves as an
  independent reference for the ordering.
- `Strptime` (`strptime.dfy`): `strptime(text, '%Y-%m-%d').date()`. It follows
  the regular expression that CPython's `_strptime` builds for this format.
  The pattern is matched against a prefix of the text. Any leftover text is an
  error. Then the `date` constructor checks the calendar. The reference
  description `Spells` lists every text that spells a given date. The parser
  is proved to accept exactly those texts.
- `Cache` (`cache.dfy`): the `from` rule, the rule chain and the filter.

The filter's inputs are parameters:

- `body` stands for `resp.json()`.
- `now` stands for `datetime.today()`.

The filter returns `Ok(verdict)`, or `Err(e)` for an exception it lets through.

Three consequences of the code as written:

- **Malformed `from`.** Only `KeyError` is caught
  (`polygon_cache/cache.py:24`). So a `from` that is not a string raises
  `TypeError`, and so does a body that is not an object. A string that does
  not parse raises `ValueError`. The model returns `Err` in all of these cases.
- **"Today".** It is the machine's local `datetime.today()`
  (`polygon_cache/cache.py:18`). The model takes that local date and time as
  a parameter.
- **No timestamp rule.** The test at `polygon_cache/tests/test_cache.py:50-59`
  expects a rule that reads the last result's timestamp. `cache.py` does not
  define one. A body with only `results` therefore gets `False`
  (`Cache.NoFromNotCached`), where line 51 expects `True`.

## Model

| member | source | states |
|---|---|---|
| `Calendar.DaysInMonth` | polygon_cache/cache.py:17 | every month has 28 to 31 days, and February has 29 exactly in leap years (the body is the Gregorian month table) |
| `Calendar.ValidDate` | polygon_cache/cache.py:17 | a date the `date` constructor accepts has a day 1..31; February 29 is valid exactly in leap years 1..9999 |
| `Calendar.Before` | polygon_cache/cache.py:18 | `<` on dates is strict; the year decides first, then the month, then the day |
| `Calendar.BeforeIffOrdinalLess` | polygon_cache/cache.py:17-18 | for valid dates, `<` (field by field) holds exactly when the proleptic Gregorian ordinal is smaller |
| `Calendar.OrdinalMonotone` | polygon_cache/cache.py:17-18 | an earlier date has a strictly smaller ordinal |
| `Calendar.DaysBeforeNextYear` | polygon_cache/cache.py:17-18 | consecutive years' ordinals are 365 or 366 days apart, per the leap-year rule |
| `Calendar.BeforeStrictTotalOrder` | polygon_cache/cache.py:18 | `<` on dates is irreflexive, asymmetric, transitive and total |
| `Strptime.MatchYear` | polygon_cache/cache.py:17 | `%Y` matches the first four characters, all digits, giving a year 0..9999 |
| `Strptime.MatchMonth` | polygon_cache/cache.py:17 | `%m` followed by `-` matches a month 1..12 of one or two characters |
| `Strptime.MatchDay` | polygon_cache/cache.py:17 | `%d` matches a day 1..31 of one or two characters |
| `Strptime.MatchFormat` | polygon_cache/cache.py:17 | a pattern match yields a year 0..9999, month 1..12, day 1..31 and an end within the text |
| `Strptime.StrptimeDate` | polygon_cache/cache.py:17 | every date the parser returns is a valid calendar date |
| `Strptime.StrptimeSound` | polygon_cache/cache.py:17 | a text that parses spells, in the format, the date it parses to |
| `Strptime.StrptimeSpelled` | polygon_cache/cache.py:17 | any spelling of year, month and day parses to that date; year 0 and a day the month lacks raise `ValueError` |
| `Strptime.StrptimeIffSpells` | polygon_cache/cache.py:17 | `strptime` returns date `d` exactly when `d` is valid and the text spells `d` |
| `Strptime.IsoFormatRoundTrip` | polygon_cache/cache.py:17 | parsing the `YYYY-MM-DD` text of a valid date gives that date back |
| `Strptime.ImpossibleDayRefused` | polygon_cache/cache.py:17 | a well-formed text naming a day its month lacks (2020-02-30) raises `ValueError` |
| `Strptime.LenientSpellingsAccepted` | polygon_cache/cache.py:17 | `2020-1-5` and `2020-01- 5` parse to 2020-01-05 |
| `Strptime.PatternMismatchRefused` | polygon_cache/cache.py:17 | month 13 and a two-digit year do not match the pattern |
| `Strptime.TrailingTextRefused` | polygon_cache/cache.py:17 | text left after the match (`T10`, the `2` of day `32`) raises `ValueError` |
| `Strptime.CalendarChecked` | polygon_cache/cache.py:17 | year 0000 and 2019-02-29 are refused; 2000-02-29 is accepted |
| `Cache.FromRule` | polygon_cache/cache.py:17-18 | the rule raises `KeyError` exactly when the body is an object without `from`; it decides exactly when `from` is a parseable string, and then its verdict is "parsed date strictly before today" |
| `Cache.CacheRules` | polygon_cache/cache.py:16-19 | the rule list falls through to the default exactly when the body is an object without `from` |
| `Cache.RunRules` | polygon_cache/cache.py:21-26 | the first rule not raising `KeyError` gives the result, whether a verdict or an error; if every rule raises `KeyError` the result is `False` |
| `Cache.CacheFilter` | polygon_cache/cache.py:12-26 | no `from` gives `False`; a parseable `from` gives "before today"; an unparseable one gives its `ValueError`; a non-string `from` or a non-object body gives `TypeError` |
| `Cache.LaterRulesIgnored` | polygon_cache/cache.py:21-23 | once a rule has not raised `KeyError`, appending further rules changes nothing |
| `Cache.KeyMissingRulesSkipped` | polygon_cache/cache.py:21-25 | rules that all raise `KeyError` leave the decision to the rules after them |
| `Cache.CacheableIffSpelledBeforeToday` | polygon_cache/cache.py:12-26 | a body is cached exactly when its `from` is a string spelling a valid date strictly before today's date |
| `Cache.FailsIffFromMalformed` | polygon_cache/cache.py:17-24 | the filter fails exactly when the body is not an object, or its `from` is present but not a string or not a parseable date |
| `Cache.TimeOfDayIrrelevant` | polygon_cache/cache.py:17-18 | two clock readings on the same date give the same result |
| `Cache.CacheableStaysCacheable` | polygon_cache/cache.py:17-18 | a body cacheable on some day stays cacheable on every later day |
| `Cache.FailureIndependentOfClock` | polygon_cache/cache.py:17-24 | a failure happens whatever the clock reads |
| `Cache.FromTwoDaysAgoCached` | polygon_cache/tests/test_cache.py:38-47 | `from: 2020-01-15` on 2020-01-17 is cached |
| `Cache.FromTodayNotCached` | polygon_cache/tests/test_cache.py:38-47 | `from: 2020-01-17` on 2020-01-17 is not cached |
| `Cache.FromFutureNotCached` | polygon_cache/tests/test_cache.py:38-47 | `from: 2020-01-30` on 2020-01-17 is not cached |
| `Cache.ImpossibleFromFails` | polygon_cache/cache.py:17 | `from: 2020-02-30` raises `ValueError`; the filter does not fall through to `False` |
| `Cache.NoFromNotCached` | polygon_cache/cache.py:21-26 | a body with only `results` is not cached, and no exception escapes |

## Left out

- `CachedRESTClient.__init__` (polygon_cache/cache.py:8-10): it installs the global on-disk `requests_cache` store and calls the `RESTClient` constructor. Both are I/O and foreign library state.
- `resp.json()` (polygon_cache/cache.py:14): HTTP body decoding is done by `requests`. The model takes the decoded value as input. So it cannot represent a body that is not JSON, for which `resp.json()` raises out of the filter before any rule runs. JSON numbers are carried as integers, since the filter only tells strings from non-strings.
- `datetime.today()` (polygon_cache/cache.py:18): the machine clock and local time zone. The model takes the local date and time as the parameter `now`.
- CPython's `_strptime` and `datetime` modules are not part of the repository. The `Strptime` module models only how they handle the `%Y-%m-%d` format.
- Strptime.StrptimeDate: recognises only the ASCII digits `0`-`9`. Python's `\d` and `int` also accept other Unicode decimal digits, such as Arabic-Indic ones.
- Strptime.StrptimeDate: gives the reason for each `ValueError` as a datatype, not the text of the exception message.
- What `requests_cache` does with an exception the filter raises is library behaviour and is not modelled.
- The timestamp rule, `_calculate_aggregate_api_calls`, `_combine_aggregate_results` and the overridden `stocks_equities_aggregates` are exercised by `polygon_cache/tests/test_cache.py:50-75` and `:125-182`. They are not defined in `cache.py`, so they are not part of this model.
- The `polygon` response models, fixtures and mocks of the tests are test scaffolding, and `test_cache_creation` checks the on-disk cache file.
