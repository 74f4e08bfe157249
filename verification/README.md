# Receipt points: validator and scoring engine

A Dafny model of the two pure functions at the heart of a small receipt
service (`app.py`):

- **`validate_receipt`** checks a submitted receipt field by field —
  retailer, total, purchase date, purchase time, a non-empty item list,
  then each item's trimmed description and price — and stops at the first
  failure with `(message, 400)`, or returns `(None, 200)`.
- **`calculate_points`** sums eight independent rules (alphanumeric
  characters of the retailer, whole-dollar total, quarter-multiple total,
  pairs of items, description-length bonus, total over 10.00, odd purchase
  day, purchase hour in [14, 16)). A rule whose field does not parse adds 0.

Around them, the in-memory table of processed receipts is modelled as a
`map` from id to entry, with the fresh id supplied by the caller.

Modules, in dependency order:

| file | module | contents |
|---|---|---|
| wrappers.dfy | `Wrappers` | `Option` with `GetOr` (Python's `dict.get(key, default)`) |
| text.dfy | `Text` | ASCII character classes, `str.strip()`, `str.split(sep)[-1]` |
| formats.dfy | `Formats` | the five regular expressions as character-class predicates, with Python's `$` |
| numbers.dfy | `Numbers` | `float` on money strings as integer cents, `int`, `strptime(…, "%H:%M")` |
| receipts.dfy | `Receipts` | `Receipt`, `Item`, and the `items` value (missing, a list, or another JSON value) |
| validation.dfy | `Validation` | the ordered checks, their messages, and the first-failure characterisation |
| scoring.dfy | `Scoring` | the eight rules and `Score` |
| scoring_facts.dfy | `ScoringFacts` | what each rule gives on validated fields; the sample receipt |
| store.dfy | `Store` | submit (validate, score, store) and look up |

Modelling choices:

- Money is integer cents. The validated money format has exactly two
  decimals, so the source's floating-point tests are restated exactly:
  `is_integer()` is `c % 100 == 0`, `% 0.25 == 0` is `c % 25 == 0`,
  `> 10.00` is `c > 1000`, and `int(p * 0.2 + 0.9999)` is
  `(c + 499) / 500`, the ceiling of `c / 500`.
- Python's `$` matches at the end of the string or before one final line
  feed, and this is modelled (`Formats.Chomp`). One consequence is
  proved: a time such as `"14:30\n"` passes validation, but `strptime`
  rejects it, so Rule 8 gives 0 (`ScoringFacts.AfternoonRejectsLineFeed`).
  Likewise `"14:60"` passes the `\d{2}:\d{2}` check but earns no Rule 8
  points (`ScoringFacts.AfternoonOnTime`).
- `strptime(s, "%H:%M")` is modelled as the standard library's pattern:
  an hour of one or two digits up to 23, a colon, a minute of one or two
  digits up to 59, and nothing after.
- Each missing key takes the source's default. In validation that is
  `""` for strings and `[]` for items. In scoring it is `"0.00"` for the
  total and prices and `""` for the other fields. So a receipt with no
  total scores the 50 and 25 points of a zero total.
- Rule 6 is mis-indented in `app.py:112-116`, so the file as written does
  not parse. The model gives it its evident meaning: +5 when the total
  exceeds 10.00.
- The repository's test (`test_app.py:10-22`) expects 60 points for its
  sample receipt. The rules as coded give 6 + 0 + 0 + 5 + 0 + 0 + 6 + 10 =
  27, and `ScoringFacts.SampleReceiptScores27` proves 27.
- `calculate_points` is not defined on every input. `len(items)` or
  `item.get` raises on most `items` values that are not a list: a number,
  `null`, a non-empty string or a non-empty object. An empty string or
  empty object gets through, because `len` gives 0 and the loop at
  app.py:100 does not run, so Rules 4 and 5 give 0. The model's `NotList`
  lumps all these together. `Scoring.Score` requires the items value to be
  a list or absent, which validation guarantees for every receipt it
  accepts. `calculate_points` can also raise on a receipt that passes
  validation: a price too large for a `float` (see "## Left out").

## Model

| member | source | states |
|---|---|---|
| Text.Strip | app.py:64 | `strip()` returns the slice of the input between its leading whitespace run and a trailing all-whitespace run, and a non-empty result neither starts nor ends with whitespace |
| Text.StripEmptyIff | app.py:64-66 | a description is empty after stripping exactly when it is all whitespace, which is when the item check's `not description` holds |
| Text.StripIdempotent | app.py:101 | stripping an already stripped description changes nothing |
| Text.LastSegment | app.py:122 | `split("-")[-1]` is the suffix after the last `-`: it holds no `-`, and it is either the whole string or is preceded by a `-` |
| Formats.Chomp | app.py:30-34 | the text `$` lets a pattern body match: exactly one final line feed is removed when there is one, and otherwise the string is returned unchanged |
| Formats.IsRetailerName | app.py:30 | `RETAILER_REGEX`; Formats.RetailerNameIff pins it |
| Formats.IsMoney | app.py:31-32 | `TOTAL_REGEX` and `PRICE_REGEX`; Formats.MoneyAnchor pins what may follow a match |
| Formats.IsDate | app.py:33 | `DATE_REGEX`; Formats.DateAnchor pins what may follow a match |
| Formats.IsTime | app.py:34 | `TIME_REGEX`; Formats.TimeAnchor pins what may follow a match |
| Formats.MoneyAnchor | app.py:31-32 | a string matching `\d+\.\d{2}` followed by `x` is accepted exactly when `x` is empty or a single line feed |
| Formats.DateAnchor | app.py:33 | a string matching `\d{4}-\d{2}-\d{2}` followed by `x` is accepted exactly when `x` is empty or a single line feed |
| Formats.TimeAnchor | app.py:34 | a string matching `\d{2}:\d{2}` followed by `x` is accepted exactly when `x` is empty or a single line feed |
| Formats.RetailerNameIff | app.py:30 | since a line feed is in `\s`, the trailing-newline allowance of `$` changes nothing: a retailer name is accepted exactly when it is non-empty and every character is a word character, whitespace, `-` or `&` |
| Numbers.NatToDigits | app.py:122 | every natural number has a digit string that reads back as that number, with no leading zero |
| Numbers.ParseMoney | app.py:31-32 | a string parses as money exactly when it matches `\d+\.\d{2}`, and the cents value splits into the dollar digits' value and the two cent digits' value |
| Numbers.FormatMoney | app.py:31-32 | every amount in cents has a two-decimal spelling that matches the money pattern and parses back to that amount |
| Numbers.AcceptedMoneyParses | app.py:44 | every string the total or price pattern accepts, with or without the trailing line feed, is read by `float` as the cents of its pattern body |
| Numbers.ParseIntRoundTrip | app.py:122 | `int` reads back the decimal spelling of every natural number |
| Numbers.ParseIntOfDigits | app.py:122 | `int` reads any text that strips to one or more digits, leading zeros included (a day such as `01` or `01` with a line feed), as the value of those digits |
| Numbers.ParseInt | app.py:122 | `int` succeeds exactly when the stripped text is one or more digits, or a `+` or `-` followed by one or more digits; Numbers.ParseIntOfDigits, Numbers.ParseIntRoundTrip, Numbers.ParseIntNegated and Numbers.ParseIntPlus pin the values it reads |
| Numbers.ParseIntNegated | app.py:122 | `int` reads back `str(-n)`: a minus sign followed by the digits of `n` reads as `-n`, for every natural number `n` |
| Numbers.ParseIntPlus | app.py:122 | `int` reads a plus sign followed by the digits of `n` as `n`, for every natural number `n` |
| Numbers.ParseDecimalCents | app.py:80-116 | `float` on a money field (the total at lines 82, 89 and 113, a price at line 105) is read as cents; Numbers.AcceptedMoneyParses pins it on every accepted total or price, and Numbers.FormatMoney gives its inverse |
| Numbers.ParseClock | app.py:131 | a time `strptime` accepts has an hour of at most 23 and a minute of at most 59 |
| Numbers.ParseClockRoundTrip | app.py:131 | on an `HH:MM` string, `strptime` succeeds exactly when the hour is at most 23 and the minute at most 59, and then formatting the parsed clock as `HH:MM` gives the string back |
| Numbers.FormatClock | app.py:131 | every valid hour and minute, written as `HH:MM`, matches the time pattern and is parsed back by `strptime` to the same hour and minute |
| Validation.FirstBadItem | app.py:63-67 | the item loop stops at an item that fails the description-or-price check with every earlier item passing, or reports that all items pass |
| Validation.Validate | app.py:39-69 | validation passes exactly when every check holds; a failure is the first check, in the order retailer, total, date, time, items, per item, that the receipt violates |
| Validation.ValidateReceipt | app.py:37-69 | the status is 200 or 400; it is 200 with no message exactly when every check holds, otherwise 400 with the message of the first violated check |
| Validation.FirstFailureUnique | app.py:39-67 | at most one failure is the first one, so the reported reason is determined by the receipt |
| Validation.FailureExcludesWellFormed | app.py:39-69 | a receipt with a first failure is not accepted |
| Validation.MessageInjective | app.py:40-67 | different failures have different messages, so the message names the check that failed |
| Validation.EmptyItemsRejected | app.py:58-60 | with well-formed retailer, total, date and time, a missing or empty item list is rejected with "Items must be a non-empty array" |
| Validation.RetailerCheckedFirst | app.py:39-40 | a bad retailer name is reported first, whatever the other fields hold |
| Scoring.AlnumCount | app.py:77 | the count is at most the length of the name; it equals the length exactly when every character is alphanumeric and is 0 exactly when none is |
| Scoring.PairPoints | app.py:96 | Rule 4 is a multiple of 5, and a fifth of it is the floor of half the item count |
| Scoring.ItemPoints | app.py:100-108 | Rule 5 for one item: nothing unless the trimmed description length is a multiple of 3 (0 included) and the price parses, and then the least `p` with `500 * p` at least the price in cents, the ceiling of 20% of the price |
| Scoring.RetailerPoints | app.py:75-77 | Rule 1 is at most the length of the name; Scoring.AlnumCount pins its value |
| Scoring.RoundDollarPoints | app.py:79-85 | Rule 2 gives 0 or 50, and 0 when the total does not parse; ScoringFacts.RoundDollarOnMoney pins when |
| Scoring.QuarterPoints | app.py:87-92 | Rule 3 gives 0 or 25, and 0 when the total does not parse; ScoringFacts.QuarterOnMoney pins when |
| Scoring.DescriptionPoints | app.py:98-108 | Rule 5 is at least the points of each single item, and 0 when no item earns any; ScoringFacts.DescriptionPointsSnoc fixes it as the sum of ItemPoints over the items |
| Scoring.LargeTotalPoints | app.py:110-116 | Rule 6 gives 0 or 5, and 0 when the total does not parse; ScoringFacts.LargeTotalOnMoney pins when |
| Scoring.OddDayPoints | app.py:119-126 | Rule 7 gives 0 or 6, and 0 when the text after the last `-` is not an integer; ScoringFacts.OddDayOnDate pins when |
| Scoring.AfternoonPoints | app.py:128-135 | Rule 8 gives 0 or 10, and 0 when `strptime` rejects the time; ScoringFacts.AfternoonOnTime and ScoringFacts.AfternoonRejectsLineFeed pin when |
| Scoring.Score | app.py:72-137 | the score is at least the sum of Rules 1, 4 and 5, and the five fixed-size rules add at most 96 more (50 + 25 + 5 + 6 + 10) |
| ScoringFacts.AlnumCountAppend | app.py:77 | Rule 1 counts character by character: the count for a joined name is the sum of the counts of its parts |
| ScoringFacts.DescriptionPointsAppend | app.py:100-108 | Rule 5 adds up per item: the points of two item lists joined are the sum of their points |
| ScoringFacts.DescriptionPointsSnoc | app.py:100-108 | one item alone earns exactly its ItemPoints, and each further item adds exactly its ItemPoints to the running Rule 5 total, as the loop does |
| ScoringFacts.WholeDollarEarnsQuarter | app.py:82-90 | a total that earns the 50 whole-dollar points always earns the 25 quarter points too |
| ScoringFacts.AcceptedTotalCents | app.py:80-82 | a validated total, with or without the trailing line feed, is read as 100 times its dollars plus its two-digit cents |
| ScoringFacts.RoundDollarOnMoney | app.py:81-85 | on a validated total, Rule 2 gives 50 points exactly when the cents are `00` |
| ScoringFacts.QuarterOnMoney | app.py:88-92 | on a validated total, Rule 3 gives 25 points exactly when the cents are `00`, `25`, `50` or `75` |
| ScoringFacts.LargeTotalOnMoney | app.py:112-116 | on a validated total, Rule 6 gives 5 points exactly when the dollars exceed 10, or are 10 with non-zero cents |
| ScoringFacts.DateLastSegment | app.py:122 | the text after the last `-` of a validated date is its two day digits, plus the trailing line feed when present |
| ScoringFacts.OddDayOnDate | app.py:120-126 | on a validated date, Rule 7 gives 6 points exactly when the last digit of the day is odd |
| ScoringFacts.AfternoonOnTime | app.py:129-135 | on a time matching `\d{2}:\d{2}` exactly, Rule 8 gives 10 points exactly when the hour is 14 or 15 and the minute's first digit is at most 5 |
| ScoringFacts.AfternoonRejectsLineFeed | app.py:131-135 | a validated time followed by the line feed that `$` allows never earns Rule 8, because `strptime` rejects the extra character |
| ScoringFacts.ValidatedFieldsParse | app.py:80-126 | on an accepted receipt, the total, every price and the day parse, so Rules 2, 3, 5, 6 and 7 never fall back to 0 through a parse failure |
| ScoringFacts.RetailerOnlyAffectsRule1 | app.py:73-137 | changing the retailer name changes the score only by the change in its alphanumeric count |
| ScoringFacts.TwelveDollarTotal | app.py:80-116 | a total of 12.00 earns 50, 25 and 5 points under Rules 2, 3 and 6 |
| ScoringFacts.SampleReceiptIsWellFormed | test_app.py:11-20 | the test's sample receipt passes validation with `(None, 200)` |
| ScoringFacts.SampleReceiptScores27 | test_app.py:10-22 | the test's sample receipt scores 27, not the 60 the test expects |
| Store.Lookup | app.py:174-179 | a lookup finds points exactly for stored ids, and returns the stored points |
| Store.Submit | app.py:149-163 | a receipt is rejected exactly when validation fails, with the first failure's message; otherwise the table gains exactly the fresh id |
| Store.SubmitThenLookup | app.py:154-163 | a well-formed receipt is accepted, and looking up the id it was stored under gives the points the engine computes for it |
| Store.SubmitKeepsOtherEntries | app.py:160-163 | storing a receipt leaves every other id's entry unchanged |

## Left out

- HTTP routes, JSON decoding, the `if not receipt` check for an empty body, and the catch-all 500 handler (app.py:141-168, 172-179) are transport. Only their validate-score-store and look-up logic is modelled, in `Store`.
- `uuid.uuid4()` is randomness: the fresh id is a parameter of `Store.Submit`, and storing under an id already in use overwrites it, as the dict assignment does.
- Loading the environment with dotenv, `os.getenv`, the secret key and the start-up banner (app.py:6-23) are configuration and I/O.
- A JSON value of the wrong type, such as a number for `total` or an item that is not an object, makes the source raise `TypeError` or `AttributeError`. Fields are typed as optional strings, so these inputs do not arise in the model.
- Text.IsAlnum: ASCII letters and digits only. Python's `isalnum`, `\w`, `\d` and `\s` are Unicode-aware, so a name such as "Café" is accepted by the source and rejected by the model.
- Text.IsSpace: the ASCII characters `str.isspace` accepts (tab through carriage return, 0x1C-0x1F, space); Unicode spaces are left out for the same reason.
- Numbers.ParseDecimalCents: reads only `\d+\.\d{2}` after stripping whitespace. Other strings `float` accepts, such as "12", "1e3", "nan" or "1_0.00", are treated as parse failures. This only matters when scoring an unvalidated receipt.
- Numbers.ParseInt: ASCII digits only, no `_` digit separators, and no limit on the number of digits (Python 3.11 and later refuse more than 4300 digits); only an unvalidated date can reach either difference.
- Scoring.Score: requires the items value to be a list or absent, because `calculate_points` fails on most other values. It is not defined on an empty string or empty object, which the source scores with Rules 4 and 5 at 0, because `NotList` does not tell these apart from the values that raise. Beyond that requirement it is total.
- Floating-point rounding and overflow are not modelled, and cents arithmetic is exact. The source's binary `float` arithmetic departs from it only for very large amounts:
  - Scoring.ItemPoints: from a price of 5 * 2^40 dollars (5497558138880.00) on, `price * 0.2` is a whole number k with a unit in the last place of 2^-12, so `k + 0.9999` rounds to `k + 1`. At that price the source gives 1099511627777 points and the model gives 1099511627776.
  - Scoring.ItemPoints: a price beyond about 1.8e308 dollars, such as `2` followed by 308 zeros and `.00`, matches the price pattern, but `float` reads it as infinity. On an item whose trimmed description length is a multiple of 3, `int(inf * 0.2 + 0.9999)` raises `OverflowError`, which the `except ValueError` does not catch. So `calculate_points` raises and the route answers 500 without storing the receipt. The model scores such a price as the ceiling of its cents / 500.
  - Store.Submit and Store.SubmitThenLookup: for that reason they accept and store a well-formed receipt with such a price, where the source answers 500 and stores nothing.
  - Scoring.RoundDollarPoints and Scoring.QuarterPoints: from about 2^47 dollars on, the nearest `float` to a total with non-zero cents can be a whole or quarter amount, so Rules 2 and 3 can award points that the cents do not earn. In the other direction, a total beyond about 1.8e308 dollars reads as infinity, which earns neither rule in the source (`inf.is_integer()` is false and `inf % 0.25` is not a number), while the model gives 50 and 25 when its cents are `00`. Rule 6 agrees: infinity exceeds 10.00.
- The client tests in `test_app.py` exercise HTTP. Only their sample receipt is used, in `ScoringFacts`.
