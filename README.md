# N46Tools query builders and member directory, in Dafny

This project models the core of N46Tools, a Python client for the JSON API of the Nogizaka46 fan site. The model has two parts.

- **Query builders** (`N46Tools/Homepage.py`): the four endpoint builders `get_member`, `get_news`, `get_schedule` and `get_blog`. Each turns optional filters into an `&`-joined query string and a referer URL, or raises an exception. They share two checks:
  - the date check: digits only, length 6 or 8, and a real Gregorian month or day;
  - the category check: one of ten fixed tokens.
  
  `__api_request` then builds the request URL from the endpoint name and the query string.
- **Member directory** (`N46Tools/utils/Member.py`): `MemberData` fills three tables from one list of member records, keyed by English name, homepage id and message id. It offers one lookup per table. `MemberInfo` is the immutable record, and its one derived field is the Japanese name.

Files:
- `errors.dfy`: module `Errors`. `Option` stands for arguments that default to `None`. `Result` is either a value or an `Error`. An `Error` is `Generic` (a plain `Exception`) or `Args` (an `ArgsException`), and each carries its message.
- `text.dfy`: module `Text`. It models `str.isdigit` (ASCII only), `str()` of an int with its round trip, and `'&'.join`.
- `calendar.dfy`: module `Calendar`. It holds the Gregorian calendar that `datetime` checks dates against.
- `member.dfy`: module `Member`. It holds the `MemberInfo` datatype, the specification function `Index` (the table that a loop of dict assignments leaves behind) with its lemmas, and the class `MemberData`. The class has the three tables as `map` fields and a ghost list of the records loaded. `LoadData` fills the tables with a loop whose invariant ties every table to `Index` of the records seen so far.
- `homepage.dfy`: module `Homepage`. It holds the constants, the two checks as functions, and the four builders. Three of the builders are methods that grow a local parameter list one append at a time and join it, as the source does. Their postconditions state the branch structure exactly.

Wall-clock values are passed in as a `Clock` value. It holds the `%M%S` cache-buster token, today's `%Y%m%d` and the current `%Y%m`. The module-level `MEMBER_DATA` directory is passed to the builders as a parameter.

Three behaviours of the code that a caller might not expect:
- A date that is not a digit string raises a plain `Exception` (`Generic`), not `ArgsException`.
- An unknown member name raises `ArgsException` (`Args`).
- Keys are not checked for uniqueness when loading. A later record with the same key overwrites the earlier one, and the round-trip lemmas take uniqueness as a precondition.

## Model

| member | source | states |
|---|---|---|
| `Homepage.Host` | N46Tools/Homepage.py:22 | definition: `__HOST`, `https://www.nogizaka46.com/s/n46` |
| `Homepage.CategoryList` | N46Tools/Homepage.py:14-20 | definition: `CATEGORY_LIST`, the ten category tokens in the source's order |
| `Homepage.RequestUrl` | N46Tools/Homepage.py:39 | definition: the requested URL is the host, `/api/list/`, the endpoint name, `?`, the query string and `&callback=res` |
| `Homepage.RequestUrlInjective` | N46Tools/Homepage.py:39 | two requests with the same URL have the same endpoint and query string, because endpoint names hold no `?` |
| `Homepage.CheckDate` | N46Tools/Homepage.py:98-118 | accepts a date exactly when it is a digit string of length 6 with year >= 1 and month 01-12, or of length 8 naming a real Gregorian day; an accepted date gives `dy=<date>`; the checks run in order: non-digit raises `Generic`, then a bad length raises `Args`, then a bad month (6 digits) or a bad date (8 digits) raises `Args`, each with its own message |
| `Homepage.ParsesAsDate` | N46Tools/Homepage.py:105-118 | definition: `strptime(s, '%Y%m%d')` succeeds on eight ASCII digits exactly when its four-digit year, two-digit month and two-digit day name a real Gregorian date (see `CheckDate` for what follows from it) |
| `Homepage.MonthThirteenRefused` | N46Tools/Homepage.py:105-111 | `202313` is refused with the month error |
| `Homepage.FebruaryThirtiethRefused` | N46Tools/Homepage.py:112-118 | `20230230` is refused with the date error |
| `Homepage.MonthZeroRefused` | N46Tools/Homepage.py:112-118 | `20230001` is refused with the date error |
| `Homepage.LeapDayAccepted` | N46Tools/Homepage.py:112-118 | `20240229` is accepted: 2024 is a leap year |
| `Homepage.LeapDayRefused` | N46Tools/Homepage.py:112-118 | `20230229` is refused with the date error: 2023 is not a leap year |
| `Homepage.MonthAccepted` | N46Tools/Homepage.py:105-108 | `202305` is accepted |
| `Homepage.NonDigitRefused` | N46Tools/Homepage.py:99-101 | a value holding a non-digit raises the plain exception before its length is looked at |
| `Homepage.SevenDigitsRefused` | N46Tools/Homepage.py:102-104 | seven digits raise ArgsException for the length |
| `Homepage.CheckCategory` | N46Tools/Homepage.py:14-20 | accepts a category exactly when it is one of the ten tokens, giving `ct=<category>`; otherwise raises `Args` naming it |
| `Homepage.CategoryExamples` | N46Tools/Homepage.py:119-124 | `live` is accepted and `Live` is refused: the match is case-sensitive |
| `Homepage.RootReferer` | N46Tools/Homepage.py:54 | definition: the front-page referer `<host>/?ima=<token>` (also at lines 95 and 165) |
| `Homepage.PaginationDetermines` | N46Tools/Homepage.py:90-93 | the unfiltered news query `rw=<count>&st=<start>` determines both numbers: equal queries mean equal count and equal start |
| `Homepage.GetMember` | N46Tools/Homepage.py:51-60 | the member request has the empty query, so its URL is exactly `<host>/api/list/member?&callback=res`; the referer is the front page with the token |
| `Homepage.GetNews` | N46Tools/Homepage.py:90-126 | with no date and no category, the query is `rw=<count>&st=<start>` and the referer is the front page; otherwise the date error wins over the category error; on success the query is `ima=<token>`, then `&dy=<date>` if given, then `&ct=<category>` if given, with no pagination, and the referer is `<host>/news/list?<query>` |
| `Homepage.GetSchedule` | N46Tools/Homepage.py:160-217 | with no filter, the query is `dy=<today>` and the referer is the front page; otherwise the date is checked first, then the category, then the member name (an unknown name raises ArgsException); a missing date becomes `dy=<current month>`; with a name, the query is `list[]=<homepage id>&dy=…[&ct=…]` and the referer is the artist page with the token; without one, the query is `ima=<token>&dy=…[&ct=…]` and the referer is `<host>/media/list?<query>` |
| `Homepage.GetBlog` | N46Tools/Homepage.py:246-264 | without a name, the count and start given are replaced, so the query is `ima=<token>&rw=32&st=0` and the referer is `<host>/diary/MEMBER?ima=<token>`; with a known name, the query is `ima=<token>&rw=<count>&st=<start>&ct=<homepage id>` and the referer is the artist page; an unknown name raises ArgsException |
| `Text.NatToString` | N46Tools/Homepage.py:91-92 | `str(n)` of a non-negative int is a digit string with no leading zero whose value is n |
| `Text.IntToString` | N46Tools/Homepage.py:91-92 | `str(i)` is the canonical decimal form of i: its digits with no leading zero (only 0 itself is written `0`), with a leading `-` exactly when i is negative |
| `Text.IntToStringInjective` | N46Tools/Homepage.py:91-92 | different ints give different strings |
| `Text.IntToStringAvoids` | N46Tools/Homepage.py:91-92 | `str(i)` holds no character other than digits and `-`, so in particular no `&` |
| `Text.IsDigitString` | N46Tools/Homepage.py:99 | definition: `str.isdigit` (also at line 170): false on the empty string, otherwise every character is an ASCII digit |
| `Text.Join` | N46Tools/Homepage.py:93 | definition: `'&'.join` (also at lines 125, 163, 208, 216 and 264): empty for no parts, the part itself for one, otherwise the parts with the separator between each two |
| `Text.JoinAppend` | N46Tools/Homepage.py:93 | `'&'.join` of a list with one more part is the old join, `&`, and that part |
| `Calendar.IsLeapYear` | N46Tools/Homepage.py:114 | definition: the Gregorian leap-year rule `datetime` uses: divisible by 4, and not by 100 unless by 400 |
| `Calendar.IsGregorianDate` | N46Tools/Homepage.py:114 | definition: the dates `datetime` accepts behind `strptime`: year at least 1, month 1-12, day from 1 to the month's length |
| `Calendar.DaysInMonth` | N46Tools/Homepage.py:114 | a month has 28 to 31 days, and has 29 exactly when it is February of a leap year |
| `Calendar.FirstOfMonth` | N46Tools/Homepage.py:107 | day 01 exists in every month 1-12 of every year >= 1, which is why the padded 6-digit check only tests the year and the month |
| `Calendar.LeapDay` | N46Tools/Homepage.py:114 | 29 February exists exactly in Gregorian leap years |
| `Calendar.YearLength` | N46Tools/Homepage.py:114 | the twelve months add up to 365 days, or 366 in a leap year |
| `Member.MemberInfo.NameJp` | N46Tools/utils/Member.py:27-30 | the Japanese name is the last name followed directly by the first name |
| `Member.Index` | N46Tools/utils/Member.py:104-107 | definition: the table that `table[key(r)] = r` for each record r in order leaves behind, starting from an empty table; `IndexKeys`, `IndexValue` and `IndexLastWins` state what it holds |
| `Member.Entries` | N46Tools/utils/Member.py:102-103 | definition: a `None` dataset holds no records, otherwise its list (empty or not) is loaded |
| `Member.IndexKeys` | N46Tools/utils/Member.py:104-107 | a key is in a table exactly when some record in the list carries it |
| `Member.IndexLastWins` | N46Tools/utils/Member.py:104-107 | the last record that carries a key is the one the table holds for it (later records overwrite earlier ones) |
| `Member.IndexValue` | N46Tools/utils/Member.py:104-107 | every entry of a table is the last record in the list carrying its key |
| `Member.IndexUnique` | N46Tools/utils/Member.py:104-107 | with unique keys, every record is in the table under its own key |
| `Member.IndexAppend` | N46Tools/utils/Member.py:104-107 | loading a second list on top of a table overwrites the first table with the second list's table |
| `Member.MemberData.constructor` | N46Tools/utils/Member.py:89-103 | a new directory holds exactly the dataset's records; a None or empty dataset leaves all three tables empty |
| `Member.MemberData.LoadData` | N46Tools/utils/Member.py:95-107 | after loading, the name, homepage-id and message-id tables are the old tables overwritten by the list's tables, and the directory's record list is extended by the list |
| `Member.UnknownKeyMessagesQuoteKey` | N46Tools/utils/Member.py:116-143 | each not-found message quotes the key it was given |
| `Member.MemberData.GetMemberInfo` | N46Tools/utils/Member.py:109-119 | succeeds exactly when some loaded record has that name, and returns the last such record; otherwise raises ArgsException with the name |
| `Member.MemberData.GetMemberInfoByHomepageId` | N46Tools/utils/Member.py:121-131 | succeeds exactly when some loaded record has that homepage id, and returns the last such record; otherwise raises ArgsException with the id |
| `Member.MemberData.GetMemberInfoByMessageId` | N46Tools/utils/Member.py:133-143 | succeeds exactly when some loaded record has that message id, and returns the last such record; otherwise raises ArgsException with the id |
| `Member.MemberData.LookupRoundTrip` | N46Tools/utils/Member.py:104-143 | with unique keys, each loaded record is returned by all three lookups under its own name, homepage id and message id |
| `Member.MemberData.KeysAgree` | N46Tools/utils/Member.py:104-143 | with unique keys, a member found by name is found again, as the same record, by its homepage id and by its message id |

The lookups are functions that only read the directory, so they leave the tables unchanged. The tables are written only by the constructor and `LoadData` (N46Tools/utils/Member.py:95-143).

## Left out

- HTTP and printing: `requests.get` and the two `print` calls in `__api_request` are network and console I/O. The model stops at the URL, query string and referer.
- Response decoding: `json.loads(response.text[4:-2])['data']` needs a foreign JSON decoder and the server's reply, so it is not modelled.
- Dataset file: building the path of `data/member_data.json` and reading it with `open`/`json.load` is filesystem I/O. The constructor takes the decoded list instead: `None` for a JSON `null`, otherwise the records. `if not _member_info_list` also turns other falsy JSON values (`{}`, `0`, `""`, `false`) into no records, and a truthy value that is not a list fails in the source; the typed `Option<seq<MemberInfo>>` has neither case.
- Malformed records: a record missing a field raises `KeyError` in the source. The model's records are typed, so it has no such case.
- Wall clock: the `datetime.now()` calls are replaced by the three strings of `Clock`.
- `strptime` internals: `strptime(s, '%Y%m%d')` is replaced by `ParsesAsDate`: a four-digit year >= 1, a two-digit month 01-12, and a two-digit day within that month. Python's `%m` and `%d` also admit one-digit values. On eight digits, a one-digit field always leaves characters unconverted, which raises `ValueError`. Year 0 is refused by `datetime`. Years above 9999 cannot be written in four digits.
- Unicode digits: `str.isdigit` also accepts non-ASCII digits. The model accepts only `0`-`9`.
- The header dict: `__HEADER` is a module-level dict whose `referer` entry each builder overwrites. The builders return the referer instead. The other header entries are constants and are not modelled.
- Exception classes: they only carry a message. `ArgsException` is `Args`; the plain `Exception` raised for a non-digit date is `Generic`; `ApiException` is only the base class and is never raised here, so the model does not capture that `except ApiException` catches `Args` errors but not `Generic` ones.
- Record field types: the source annotates `homepage_id` and `message_id` as `int`. The model uses `int` for both and prints them with Python's `str()`.
