# Receipt analyzer: the text-to-fields engine in Dafny

The receipt analyzer turns the text read from a receipt into a record: vendor,
date, amount, currency and category. Its repository holds two versions of this
engine that evolved independently. The model keeps them apart as two strategies.

- **Dashboard strategy** (`utils.py`, modules `Dashboard*`):
  - `DashboardAmount`: normalisation, every hit of the amount expression on every line, keyword scoring, and the first candidate of highest score rendered as `symbol + str(float)`.
  - `DashboardDate`: the five date expressions. Lines that hold the word "date", "invoice" or "billed" (in any letter case) are searched first, then the whole text. A date is kept only when its year lies from 2000 to the next year.
  - `DashboardVendor`: stored vendors first, then the header-line heuristic over the first ten lines.
  - `DashboardCategory`: the first keyword rule that matches the lower-cased text.
  - `DashboardReceipt`: `process_file`. It assembles the record and splits the amount string back into a currency and a value.
  - `DashboardExample`: `"Rs.1,234.50"` worked through to `"₹1234.5"` and into the record.
- **API strategy** (`ocr_parser.py`, modules `Api*`):
  - `ApiVendor`: the first of the first six non-blank lines that holds a letter and mentions neither "total" nor "amount".
  - `ApiAmount`: the labelled expression, then the plain expression, then the fallback, then 0. A hit made only of commas makes the conversion fail.
  - `ApiCurrency`: the first currency symbol, else `₹`.
  - `ApiDate`: three expressions crossed with eight `strptime` formats, else the current date. The formats' parsing is modelled concretely.
  - `ApiReceipt`: `parse_receipt` and its table of nine known vendors.
  - `ApiExample`: the receipt `BESCOM / Bill Date: 01-04-2024 / Total Amount: ₹450.00` worked through to the whole record.
- **Shared modules:**
  - `Text`: characters, `lower`, `strip`, `splitlines`, `replace` and containment.
  - `Search`: `re.search` as the first matching start position, plus `\b` and digit fields.
  - `Decimal`: digits, numerals and `str(float)` of an amount in cents.
  - `Calendar`: dates, validity and ISO text.
  - `Wrappers`: `Option` and `Result`.

Every regular expression of the source is written out as a matcher for that one
expression. Each matcher has a comment explaining why greedy matching and
backtracking give the hit it computes. `re.findall` is modelled as repeated search
from the end of the previous hit, and Python's `max` as a left-to-right scan that
replaces the best candidate only on a strictly higher score.

Extractors that loop over lines, patterns or formats are methods with `for` or
`while` loops. Each is proved equal to a function of its inputs, and the
properties are proved about those functions.

- `DashboardAmount.ExtractAmount` appends candidates in two nested loops and accumulates each score with `+=` and `-=`.
- `DashboardVendor.ExtractVendor` appends to `potential`.
- The date extractors and `ClassifyCategory` return early from nested searches.

Amounts are exact integers counting hundredths.

The hidden inputs of the source are parameters:
- the stored vendor list, most frequent first;
- the category rules, as `Option<seq<(category, keywords)>>`;
- the current year (Dashboard) or the current date (API);
- the fuzzy date parser used by the Dashboard strategy, as a function `string -> Option<Date>`.

In the category rules, `None` stands for a rule file that is missing or that cannot be read.

The API strategy signals a failing amount conversion as the `Failure` of
`ApiReceipt.ReceiptOf`. The upload handler (`main.py:29-30`) is written to answer
such an exception with HTTP status 400. As written, though, `main.py:5` imports
`get_all_receipts`, which `database.py` does not define, so that module fails when
it is imported.

Two facts about the source shape the model:

- `classify_category` (`utils.py:119-129`) returns "Other" when no rule matches. The vendor-name table exists only in `parse_receipt` (`ocr_parser.py:80-97`), which uses no keyword rules.
- The amount extractor of `utils.py` (`utils.py:34-66`) splits the normalised text into lines without trimming them. Only the line recorded with a candidate is stripped.

## Model

| member | source | states |
|---|---|---|
| DashboardAmount.NormaliseClean | utils.py:35 | after normalisation the text holds no comma and no occurrence of "INR" or "Rs." |
| DashboardAmount.NumberAt | utils.py:40 | the number group matches exactly when two digits stand at the position; its hit has 2 to 10 integer digits and at most 2 decimals, and keeps the symbol group |
| DashboardAmount.AmountMatchAt | utils.py:40 | a hit of the whole expression is well formed and ends after its start, within the line |
| DashboardAmount.AmountMatchesFrom | utils.py:40 | every hit `findall` returns is well formed: symbol group empty or one of the four symbols, 2 to 10 digits, at most 2 decimals |
| DashboardAmount.FindAmountsIff | utils.py:40-42 | a line yields a hit exactly when it holds two adjacent digits |
| DashboardAmount.MatchHasPair | utils.py:40 | a hit implies two adjacent digits in the line |
| DashboardAmount.PairMatches | utils.py:40 | the expression hits at the first of any two adjacent digits |
| DashboardAmount.Score | utils.py:48-59 | every score lies in [-3, 7]; "total amount" on the line gives at least 2; a penalty keyword caps it at 4 |
| DashboardAmount.LineScore | utils.py:48-59 | the score accumulated by the `+=`/`-=` steps equals the scoring function of the lower-cased line |
| DashboardAmount.ToCandidate | utils.py:45-60 | a candidate's value is below 10^10 with at most two decimals, its score in [-3, 7], its symbol one of the four or empty |
| DashboardAmount.LineCandidates | utils.py:43-60 | one candidate per hit of the line, in `findall` order |
| DashboardAmount.CandidatesOf | utils.py:39-60 | every candidate is valid, and there is none exactly when no line yields a hit |
| DashboardAmount.CandidatesOfSnoc | utils.py:39-60 | the candidates of one more line are those collected so far followed by that line's |
| DashboardAmount.LineCandidatesStep | utils.py:43-60 | the candidate appended for the `j`-th hit is its stripped line, value, symbol and score |
| DashboardAmount.CollectCandidates | utils.py:36-60 | the two nested loops build exactly the candidate list of all lines, line by line and hit by hit |
| DashboardAmount.BestIndex | utils.py:64 | the chosen candidate has maximal score and every earlier candidate scores strictly less (the first maximum) |
| DashboardAmount.ExtractAmount | utils.py:34-66 | the method returns the amount string of the text |
| DashboardAmount.AmountEmptyIff | utils.py:39-63 | the result is "" (never "0") exactly when the normalised text holds no two adjacent digits |
| DashboardAmount.AmountIsFirstBest | utils.py:62-66 | the result renders a candidate of maximal score before which every candidate scores strictly less |
| DashboardExample.RsNormalised | utils.py:35 | "Rs.1,234.50" normalises to "₹1234.50" |
| DashboardExample.RsCandidates | utils.py:36-60 | that text yields exactly one candidate, 1234.50 with the rupee sign |
| DashboardExample.RsAmount | utils.py:34-66 | the amount string of "Rs.1,234.50" is "₹1234.5" |
| DashboardExample.RsRecord | utils.py:145-150 | the record for that text has currency "₹" and amount 1234.50 |
| DashboardDate.PatternAt | utils.py:70-76 | a hit of each of the five expressions is a non-empty occurrence bounded by `\b` on both sides |
| DashboardDate.SearchPatterns | utils.py:79-87 | the loop over the expressions returns the first accepted date of a line |
| DashboardDate.ExtractDate | utils.py:69-97 | the method returns the ISO text of the date of the text, or "" |
| DashboardDate.PatternsDateFirst | utils.py:79-87 | the date of a line is that of the first expression whose hit is accepted; a rejected or unparsable hit falls through; none exactly when no expression's hit is accepted |
| DashboardDate.ContextDateFirst | utils.py:77-87 | the first loop settles on the first date, invoice or billed line with an accepted date, and on nothing exactly when there is no such line |
| DashboardDate.ContextLineWins | utils.py:77-96 | an accepted date on the first qualifying line is the result, whatever dates appear elsewhere |
| DashboardDate.DateOfBounds | utils.py:84-97 | given a date parser that returns only real calendar dates, a date found has a year from 2000 to next year and its ISO text reads back as it; the result is "" exactly when no date is found |
| DashboardDate.PatternsDateValid | utils.py:79-85 | given a date parser that returns only real calendar dates, every date a line yields is a real calendar date |
| DashboardDate.PatternsDateBounds | utils.py:84 | every accepted date of a line has a year from 2000 to next year |
| DashboardDate.DayFirstExample | utils.py:71 | "Date: 12/03/2024" is hit by the first expression at "12/03/2024" |
| Calendar.DaysInMonth | utils.py:85 | months have 28 to 31 days, and 29 exactly for February of a leap year |
| Calendar.Padded | utils.py:85 | zero padding keeps the value and gives exactly the width for a number that fits |
| Calendar.IsoRoundTrip | utils.py:85 | `str(dt.date())` of a valid date is ten characters long and reads back as that date |
| DashboardVendor.KnownVendorFromSpec | utils.py:103-105 | the stored vendor found is the first of the list whose lower-cased name occurs in the lower-cased text |
| DashboardVendor.KnownVendorWins | utils.py:103-105 | a stored vendor that occurs in the text, with no earlier one occurring, is returned verbatim ahead of any line |
| DashboardVendor.PotentialVendors | utils.py:106-115 | the `potential` list holds only plausible names: 3 to 60 characters, no label prefix, a capitalised word |
| DashboardVendor.CollectPotential | utils.py:106-115 | the loop appends exactly the plausible stripped lines, in order |
| DashboardVendor.ExtractVendor | utils.py:100-116 | the method returns the vendor of the text |
| DashboardVendor.LineVendorFirst | utils.py:107-116 | the line vendor is the first plausible line, stripped, or "Unknown" when none is |
| DashboardVendor.VendorFromLines | utils.py:101-116 | with no stored vendor occurring, the vendor is the first plausible line among the first ten, or "Unknown"; any other vendor is a plausible name, and every vendor is stripped |
| DashboardCategory.ClassifyCategory | utils.py:119-129 | the method returns the category of the text under the rules |
| DashboardCategory.FirstRuleFromSpec | utils.py:124-126 | the rule found is the first, in rule order, with a keyword in the lower-cased text |
| DashboardCategory.CategoryIsFirstRule | utils.py:119-129 | the category is that of the first matching rule, and "Other" when no rule matches or the rules are unavailable |
| DashboardCategory.CapitalKeywordNeverMatches | utils.py:120-125 | a keyword holding a capital letter never matches the lower-cased text |
| DashboardReceipt.SplitAmount | utils.py:147-150 | the currency recovered is "" or one symbol, and it is "" whenever no value is recovered |
| DashboardReceipt.ProcessFile | utils.py:132-166 | the method returns the record of the text, or nothing for whitespace-only text |
| DashboardReceipt.SplitParts | utils.py:147-150 | a symbol group, digits, a point and one or two digits split back into that symbol and value |
| DashboardReceipt.SplitRendered | utils.py:147-150 | splitting a rendered amount gives back exactly its symbol and value |
| DashboardReceipt.SplitEmpty | utils.py:147-150 | the empty amount string gives currency "" and no amount |
| DashboardReceipt.NoRecordIff | utils.py:136-138 | no record comes back exactly when the text is only whitespace |
| DashboardReceipt.RecordAmountIsBest | utils.py:141-150 | the record's currency and amount are the symbol and value of the candidate `extract_amount` chose, and "" and `None` when there is no candidate |
| ApiVendor.NonBlankLines | ocr_parser.py:30-31 | the lines looked at are non-empty and stripped |
| ApiVendor.ExtractVendor | ocr_parser.py:29-35 | the method returns the vendor of the text |
| ApiVendor.FirstVendorLineSpec | ocr_parser.py:32-34 | the line found is the first that holds a letter and mentions neither "total" nor "amount" |
| ApiVendor.VendorIsFirstLine | ocr_parser.py:29-35 | the vendor is the first qualifying line among the first six non-blank stripped lines, or "Unknown Vendor"; any other vendor holds a letter and no "total"/"amount" |
| ApiVendor.NoLinesIffBlank | ocr_parser.py:30-31 | there are no lines to look at exactly when every line of the text is blank |
| ApiAmount.TailAt | ocr_parser.py:39 | after a label, the number starts at a digit or a comma |
| ApiAmount.LabelledNumber | ocr_parser.py:39 | the number group of a labelled hit is a non-empty run of digits and commas with at most two decimals |
| ApiAmount.LabelledAt | ocr_parser.py:39 | a labelled hit is well formed and ends within the text |
| ApiAmount.PlainAt | ocr_parser.py:40 | a plain hit has a point and exactly two decimals |
| ApiAmount.PlainMatchesFrom | ocr_parser.py:49 | every hit of the fallback expression is well formed |
| ApiAmount.MaxCents | ocr_parser.py:51 | the fallback value is the largest of the hits and is one of them |
| ApiAmount.SearchPattern | ocr_parser.py:42-44 | the first hit of either expression is well formed |
| ApiAmount.ExtractAmount | ocr_parser.py:37-52 | the method returns the amount of the text, or the conversion error |
| ApiAmount.ParseFailsIff | ocr_parser.py:46 | the conversion fails exactly when the number holds only commas and no decimals, and otherwise gives the number's value |
| ApiAmount.CommasOnly | ocr_parser.py:46 | removing commas leaves nothing exactly when there was nothing but commas |
| ApiAmount.WholeIsDigits | ocr_parser.py:46 | with commas removed, the integer part is all digits |
| ApiAmount.FallbackNeverHits | ocr_parser.py:40-52 | when neither expression hits, the fallback finds nothing and the amount is 0 |
| ApiAmount.LabelledWins | ocr_parser.py:39-46 | the first labelled hit in the text gives the amount, ahead of any plain hit |
| ApiAmount.PlainWhenNoLabel | ocr_parser.py:40-48 | without a labelled hit the first plain hit gives the amount, and it always converts |
| ApiAmount.FailureOnlyFromLabel | ocr_parser.py:39-46 | the amount fails only when a labelled hit is there and its number does not convert |
| ApiAmount.SubtotalIsLabelled | ocr_parser.py:39 | "Subtotal: 12.50" is a labelled hit inside a word and gives 12.50 |
| ApiAmount.SubtotalHit | ocr_parser.py:39 | that labelled hit starts at "total", three characters in |
| ApiAmount.CommaAfterLabelFails | ocr_parser.py:39-46 | "Total, cash" fails with `could not convert string to float: ''` |
| ApiCurrency.CurrencyIsFirstSymbol | ocr_parser.py:54-56 | the currency is the first of the four symbols in the text, or "₹" when there is none |
| ApiDate.PatternAt | ocr_parser.py:59-63 | a hit of each of the three expressions is a non-empty occurrence at the position |
| ApiDate.DayAlts | ocr_parser.py:65-67 | the `%d` alternatives are one or two characters with values 1 to 31 |
| ApiDate.MonthAlts | ocr_parser.py:65-66 | the `%m` alternatives have values 1 to 12 |
| ApiDate.MonthNameFrom | ocr_parser.py:67 | a month name read gives a month from 1 to 12 |
| ApiDate.Strptime | ocr_parser.py:75 | a format reads only a real date |
| ApiDate.TryFormats | ocr_parser.py:73-77 | a date read by some format is a real date |
| ApiDate.PatternDate | ocr_parser.py:70-77 | the date an expression contributes is a real date |
| ApiDate.ExtractDate | ocr_parser.py:58-78 | the method returns the date of the text |
| ApiDate.TryFormatsSpec | ocr_parser.py:73-77 | the formats are tried in list order: the date is that of the first format that reads the hit, and none when no format does |
| ApiDate.DateIsFirstRead | ocr_parser.py:69-78 | the date is that read from the first hit of the first expression whose hit some format reads, and `now` when there is none |
| ApiDate.DateAlwaysValid | ocr_parser.py:69-78 | a date always comes back, and it is a real date when `now` is |
| ApiDate.StrptimeShape | ocr_parser.py:64-68 | every format reads only texts of its shape: a four-digit year and its separators in place |
| ApiDate.TryDaysEnd | ocr_parser.py:65-67 | a day-first match has the separator (or, for month names, whitespace) right after the day, the separator again before the year, and ends in four year digits |
| ApiDate.DashedDayFirst | ocr_parser.py:65 | "01-04-2024" is read by the first format as 2024-04-01 |
| ApiDate.MixedSeparatorsUnread | ocr_parser.py:60-68 | the search with the first expression finds the whole of "15-03/2023", and no format reads it |
| ApiDate.TwoDigitYearUnread | ocr_parser.py:60-68 | the search with the first expression finds the whole of "15/03/23", and no format reads it |
| ApiDate.NoShapeUnread | ocr_parser.py:64-77 | a text of no format's shape is read by none |
| ApiReceipt.KnownCategoryFromSpec | ocr_parser.py:85-90 | the category found is that of the first table entry whose lower-cased name occurs in the lower-cased vendor |
| ApiReceipt.CategoryIsFirstKnown | ocr_parser.py:85-90 | the category is that of the first table entry, in table order, contained in the vendor ignoring case, else "Other" |
| ApiReceipt.ParseReceipt | ocr_parser.py:80-97 | the method returns the receipt of the text, or the amount's conversion error |
| ApiReceipt.ReceiptFields | ocr_parser.py:80-97 | the call fails exactly when the amount conversion fails, only after a labelled hit; otherwise every field is its extractor's result and the date is real |
| ApiExample.BillReceipt | ocr_parser.py:80-97 | the BESCOM bill reads as vendor "BESCOM", amount 450.00, date 2024-04-01, category "Electricity" and currency "₹", whatever the current date |
| ApiExample.BillVendor | ocr_parser.py:29-35 | its vendor is the first line, "BESCOM" |
| ApiExample.BillAmount | ocr_parser.py:37-46 | its amount is 450.00, from the "Total Amount" label |
| ApiExample.BillDate | ocr_parser.py:58-75 | its date is 2024-04-01 |
| ApiExample.BillCurrency | ocr_parser.py:54-56 | its currency is the rupee sign |
| ApiExample.BescomCategory | ocr_parser.py:85-90 | "BESCOM" falls in "Electricity", the sixth entry, no earlier name occurring in it |

## Left out

- Text extraction from images, PDFs and text files (OCR, PDF parsing and decoding) is not modelled. The text is an input. `process_file` returns nothing only when that text is whitespace.
- The SQLite store, the Streamlit dashboard, the FastAPI routes and the pydantic schemas are not part of this model.
- The vendor ranking from the database is the parameter `topVendors`. Its frequency order is assumed, not checked.
- The rule file read in `classify_category` is the parameter `rules`. `None` stands for a missing or unreadable file. A malformed keyword, such as one that is not a string, makes the source raise only when the search reaches it: `any` stops at the first keyword found and the loop returns at the first matching rule, so `{"Electricity": ["bescom", 5]}` on a text holding "bescom" still gives "Electricity", and the exception, once raised, gives "Other". Typed rules cannot express a malformed keyword. A rule whose keywords are one JSON string instead of a list is not an error in the source: the loop goes through that string character by character. Typed rules express that case only when the caller passes each character as a one-letter keyword.
- The console prints in `process_file` are left out.
- The fuzzy parser of `dateutil` is the parameter `parse`, with `None` for a parse error. Its internals are not modelled.
- DashboardDate.DateOfBounds: its ISO read-back assumes that `parse` returns only real calendar dates (`ReadsRealDates`), as `dateutil` does, since a `datetime` cannot hold any other date.
- The current date is a parameter of the API strategy, and the current year one of the Dashboard strategy. Those stand in for `datetime.now()`.
- ApiDate.ExtractDate: returns a date, not a `datetime`. The time of day of the result of `strptime` (always midnight) and of `datetime.now()` is not kept.
- Character classes are ASCII: `lower`, `isupper`, `isalpha`, `\d`, `\w` and case-insensitive matching cover ASCII letters and digits only. Whitespace for `\s`, `strip()` and `split()` is the ASCII set: space, tab, '\n', '\r', '\x0b', '\x0c' and '\x1c' to '\x1f'. Python applies all of these to the whole of Unicode, so it also counts characters such as '\x85', '\xa0' and '\u2028' as whitespace.
- `splitlines` splits only on '\n', and a final '\n' does not start an empty line. Python also splits on '\r', '\x0b', '\x0c', '\x1c' to '\x1e', '\x85' and the Unicode line separators.
- Amounts are integers counting hundredths, not binary floating point. The rendering `str(float)` is modelled for values below 10^10, which is every value the amount expression can produce. Python switches to exponent notation only from 10^16.
- ApiAmount.ExtractAmount: the fallback at `ocr_parser.py:49-51` is modelled as written, but ApiAmount.FallbackNeverHits shows it never applies. Its largest hit is therefore not related to what the result would be.
- `strptime`'s month names are the English ones of the C locale. Other locales are not modelled.
- The concrete API example stops at the BESCOM bill. A vendor such as "Contact", where "ACT" occurs inside another word, is covered only by ApiReceipt.CategoryIsFirstKnown in general, not as a worked example.
- DashboardVendor.PotentialVendors: "a word starting with an upper-case letter" is stated as a predicate over the words of `clean.split()` on ASCII whitespace, not by character position in the line.
