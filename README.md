# Expense tracker — a verified model of its core

The expense tracker is a small console script. It asks for one expense, which has a name, an amount and a category chosen from five labels. It appends the expense to a comma-separated file. It then reads the whole file back and prints:

- the total per category, in the order the categories first appear;
- the total spent;
- what remains of a monthly budget;
- how much of that may be spent per day over the rest of the month.

This project models that core in Dafny and proves what it promises.

- `wrappers.dfy` (`Wrappers`): `Option` and `Result`.
- `expense.dfy` (`ExpenseRecord`): the `Expense` record.
  - It is a datatype with the three fields name, category and amount. Its constructor stores each argument unchanged, and no operation updates a field afterwards.
  - Its `__repr__` text form is `Repr`.
- `input.dfy` (`UserInput`): the two re-prompting loops of `get_user_expense`, and the five category labels with their icons.
  - They are methods over the sequence of answers the user types, each already converted by `float()` or `int()`.
  - `None` stands for an answer whose conversion raises `ValueError`.
- `text.dfy` (`Text`): the string operations the file format relies on.
  - `str.strip()` is modelled with Python's `isspace` set of characters.
  - `str.split(",")` is modelled, together with the join it undoes.
- `storage.dfy` (`ExpenseFile`): the file format.
  - Writing is `name,amount,category` and a newline.
  - Reading strips the line, splits it, unpacks exactly three fields and calls `float()` on the amount.
  - The read loop stops at the first line that raises.
  - Proved here: the round trip, and what happens to a field holding a comma.
  - Also proved: appending and then reading gives back the earlier expenses followed by the new one. It needs these conditions:
    - The file read before appending loads.
    - Every line of the file ends with a newline. Otherwise the appended text would run on from the last line.
    - No field holds a comma or a line break.
    - The name does not start with whitespace and the category does not end with it, since `strip()` would remove that whitespace.
    - `float()` recovers the amount from its `str()`.
- `calendar.dfy` (`Calendar`): the proleptic Gregorian month lengths that `calendar.monthrange` returns, and valid dates.
- `summary.dfy` (`Summary`): `summarize_expenses`.
  - The grouping loop keeps a `map` plus the key order of the Python dict.
  - Also modelled: the total, the remaining budget, the remaining days, the daily allowance, and the report as a whole.

Amounts are exact `real`s. Two conversions are parameters:

- `show: real -> string` is Python's `str()` of an amount, which is what is written to the file.
- `toNumber: string -> Option<real>` is `float()` of a text. It yields `None` where `float()` raises.

The file is the sequence of its lines. A `Store` is either `Missing` or `Present(lines)`.

An empty file that exists is not the "no expenses recorded yet" case. The program prints that message only when the file does not exist (buget_tacker.py:72-74). An existing empty file gives a summary with no categories, nothing spent and the whole budget remaining (`Summary.EmptyFileSummary`).

## Model

| member | source | states |
|---|---|---|
| `ExpenseRecord.Repr` | expense.py:10 | The definition of the text form: `Expense(name='…', category='…', amount=…)`, with the fields in the order name, category, amount. |
| `ExpenseRecord.ReprDeterminesFields` | expense.py:9-10 | The text form `Expense(name='…', category='…', amount=…)` lists name, category and amount in that order. When neither name nor category holds a quote, equal text forms mean equal names, equal categories and equal amount texts. |
| `UserInput.Categories` | buget_tacker.py:35-41 | The definition of the five category labels, in menu order: U+1F354 Food, U+1F3E0 Home, U+1F4BC Work, U+1F389 Fun and U+2728 Misc. Each icon is followed by one space. The stored category is the full label, icon included. |
| `UserInput.AmountAccepted` | buget_tacker.py:28-30 | The definition of an acceptable amount answer: `float()` succeeds and the value is not negative. |
| `UserInput.CategoryAccepted` | buget_tacker.py:50-51 | The definition of an acceptable category answer: `int()` succeeds and the number minus 1 is a valid index into the five labels. |
| `UserInput.ReadAmount` | buget_tacker.py:25-33 | Returns the first answer that is a number and not negative (zero is kept). Every earlier answer was refused. It returns nothing exactly when no answer is acceptable. |
| `UserInput.ReadCategory` | buget_tacker.py:43-59 | Returns the label at 1-based position `k` of the first answer `k` with 1 ≤ k ≤ 5. Every earlier answer was refused. It returns nothing exactly when no answer is acceptable. |
| `UserInput.GetUserExpense` | buget_tacker.py:21-59 | An expense is built exactly when both prompts get an acceptable answer. Its name is the one typed. Its amount is the first non-negative amount answer. Its category is one of the five labels: the one picked by the first valid number. |
| `Text.Strip` | buget_tacker.py:81 | The definition of `line.strip()`: whitespace removed from the right end, then from the left end. Its properties are the `Text.Strip…` lemmas below. |
| `Text.StripTrims` | buget_tacker.py:81 | `strip()` leaves a contiguous slice of the line, and everything it removes on either side is whitespace. |
| `Text.StripEnds` | buget_tacker.py:81 | What `strip()` leaves is empty, or starts and ends with a non-whitespace character. |
| `Text.StripNewline` | buget_tacker.py:81 | For a text without whitespace at its ends, stripping the text plus a newline gives back the text. |
| `Text.StripKeepsCount` | buget_tacker.py:81 | `strip()` removes no character that is not whitespace, so it keeps the number of commas. |
| `Text.Split` | buget_tacker.py:81 | The definition of `split(",")`: the pieces between commas, from left to right. The text without a comma is a single field. Its properties are the `Text.Split…` lemmas below. |
| `Text.SplitCount` | buget_tacker.py:81 | `split(",")` yields one more field than there are commas. |
| `Text.SplitFields` | buget_tacker.py:81 | `split(",")` yields at least one field and no field holds a comma. Joining the fields with commas gives back the text. |
| `Text.SplitThree` | buget_tacker.py:81 | When the split yields three fields, the text is those three fields joined by two commas. |
| `Text.SplitJoin` | buget_tacker.py:81 | Splitting comma-free fields joined by commas gives back the fields. |
| `ExpenseFile.FormatLine` | buget_tacker.py:65 | The definition of the written line: name, `str()` of the amount and category, each separated by a comma, then a newline. |
| `ExpenseFile.ParseLine` | buget_tacker.py:81 | A line unpacks exactly when its stripped text holds exactly two commas. The fields then join back to the stripped text and hold no comma. Otherwise the unpack fails and reports commas + 1 fields. |
| `ExpenseFile.LoadLine` | buget_tacker.py:81-86 | The definition of reading one line: unpack it into three fields, then call `float()` on the amount. A wrong field count or an amount that is not a number is that line's error. Otherwise the result is the expense built from name, category and amount. |
| `ExpenseFile.StripFormatLine` | buget_tacker.py:65 | Stripping a written line removes exactly its newline when the name does not start with whitespace and the category does not end with it. |
| `ExpenseFile.ThreeFieldsParse` | buget_tacker.py:81 | A line that strips to three comma-free pieces joined by commas parses into those pieces, in order. |
| `ExpenseFile.FieldsRoundTrip` | buget_tacker.py:65-81 | Reading a written line gives back the name, the amount text and the category. This needs comma-free fields, a name not starting with whitespace and a category not ending with it. |
| `ExpenseFile.ExpenseRoundTrip` | buget_tacker.py:80-86 | Under the same conditions, when `float()` recovers the amount from its `str()`, reading the written line gives back the expense itself. |
| `ExpenseFile.TooManyCommasFail` | buget_tacker.py:81 | A line holding more than two commas fails to unpack, with more than three fields. Stripping cannot remove a comma. |
| `ExpenseFile.FormatLineCommas` | buget_tacker.py:65 | A written line holds the commas of its three fields plus the two separators. |
| `ExpenseFile.CommaInFieldBreaksLine` | buget_tacker.py:65-81 | A written expense with a comma in a field is read back as a failing line with more than three fields. The format has no escaping. |
| `ExpenseFile.Collect` | buget_tacker.py:77-86 | Reading succeeds exactly when every line loads. The expenses are then the lines' expenses, in order. Otherwise the error is that of the first line that fails. |
| `ExpenseFile.LoadAll` | buget_tacker.py:77-86 | The definition of reading the file: each line is read in file order, and the results are combined as `ExpenseFile.Collect` states. |
| `ExpenseFile.ParseEach` | buget_tacker.py:80-86 | Every line is parsed, in file order, one result per line. |
| `ExpenseFile.LoadExpenses` | buget_tacker.py:76-86 | The read loop, which appends one expense per line and stops at the first line that raises, yields exactly the reading of all the lines. |
| `ExpenseFile.FirstErrorDecides` | buget_tacker.py:80-86 | When all lines before line `i` load and line `i` fails, reading the file fails with line `i`'s error. |
| `ExpenseFile.AppendThenLoad` | buget_tacker.py:64-86 | Take a readable file each of whose lines ends with a newline, as `readlines` returns them when the text is empty or ends with one. Append a well-formed expense: no field holds a comma or a line break, the name does not start with whitespace and the category does not end with it, and `float()` recovers the amount from its `str()`. Reading the file back then gives the earlier expenses followed by the new one. |
| `Calendar.IsLeapYear` | buget_tacker.py:110 | The definition of the Gregorian leap rule that `calendar.monthrange` applies: every fourth year, except centuries not divisible by 400. |
| `Calendar.DaysInMonth` | buget_tacker.py:110 | A month has 28 to 31 days. April, June, September and November have 30. February has 29 exactly in Gregorian leap years. |
| `Calendar.YearLength` | buget_tacker.py:110 | The twelve month lengths add up to 366 in a leap year and to 365 otherwise. |
| `Calendar.KnuckleRule` | buget_tacker.py:110 | A month has 31 days exactly when it is an odd month up to July or an even month from August on. |
| `Calendar.FebruaryExamples` | buget_tacker.py:110 | February has 29 days in 2024 and 2000, and 28 in 2023 and 1900. |
| `Summary.Total` | buget_tacker.py:103 | The definition of the total spent: the amounts of all expenses added from first to last. `Summary.TotalsAddUp` relates it to the category totals. |
| `Summary.CategoryTotal` | buget_tacker.py:94-97 | The definition of a dict entry: the amounts of the expenses filed under the category, added in file order. It is zero for a category no expense names. |
| `Summary.FirstSeen` | buget_tacker.py:91-100 | The dict's key order lists each category of the expenses once, and only those. |
| `Summary.FirstSeenPrefix` | buget_tacker.py:91-100 | The key order after the first `k` expenses is a prefix of the final key order. Later expenses never move a key forward. |
| `Summary.CategoriesSnoc` | buget_tacker.py:91-97 | One more expense adds exactly its category to the categories seen. |
| `Summary.CategoryTotalAbsent` | buget_tacker.py:91-97 | A category no expense names totals zero. |
| `Summary.GroupedAdd` | buget_tacker.py:94-95 | A turn of the loop for a key already in the dict adds the amount to that key's entry. Entries and key order stay in step with the expenses seen. |
| `Summary.GroupedNew` | buget_tacker.py:96-97 | A turn of the loop for a new key creates its entry with the amount at the end of the key order. Entries and key order stay in step with the expenses seen. |
| `Summary.GroupByCategory` | buget_tacker.py:91-97 | After the loop, the keys are exactly the categories of the expenses, in first-seen order. Each entry is the sum of the amounts filed under its key. |
| `Summary.SumTotalsLast` | buget_tacker.py:91-103 | Over distinct categories, the last expense adds its amount to the sum of category totals exactly when its category is among them. |
| `Summary.TotalsAddUp` | buget_tacker.py:91-103 | The category totals, summed over the categories in first-seen order, equal the total spent. |
| `Summary.SumAtTotals` | buget_tacker.py:99-103 | The entries of a dict holding the category totals sum like the totals. |
| `Summary.RemainingDays` | buget_tacker.py:109-111 | For a valid date, the days remaining in the month lie between 0 and 30. They are 0 exactly on the month's last day. |
| `Summary.RemainingDaysCountDown` | buget_tacker.py:110-111 | Days remain exactly when tomorrow is in the same month. Tomorrow one fewer day remains. |
| `Summary.DailyBudget` | buget_tacker.py:113-117 | A daily allowance exists exactly when days remain. Multiplied by the remaining days it gives back the remaining budget. |
| `Summary.Summarize` | buget_tacker.py:91-117 | The definition of the summary of a list of expenses. It holds the categories in first-seen order, the total of each category, the total spent, the budget minus that total, the remaining days and the daily allowance. |
| `Summary.ExpectedReport` | buget_tacker.py:69-117 | The definition of what the program reports. A missing file gives "no expenses yet", a file with a failing line gives that line's error, and a readable file gives the summary of its expenses. |
| `Summary.ReportOn` | buget_tacker.py:91-117 | The grouping, totals, remaining budget, remaining days and allowance computed after reading are exactly the summary of the expenses read. |
| `Summary.SummarizeExpenses` | buget_tacker.py:69-117 | A missing file gives the "no expenses yet" report. A line that fails gives that line's error. Otherwise the report is the summary of every expense in the file. |
| `Summary.SummaryAddsUp` | buget_tacker.py:91-107 | In a summary, every key in the order has an entry, the entries sum to the total spent, and the remaining budget is the budget minus that total, not clamped. |
| `Summary.EmptyFileSummary` | buget_tacker.py:91-107 | An existing empty file gives no categories, nothing spent and the whole budget remaining. |
| `Summary.DailyBudgetUnlessLastDay` | buget_tacker.py:109-117 | A summary carries a daily allowance exactly when today is not the last day of the month. |
| `Summary.CoffeeAndRent` | buget_tacker.py:91-107 | Take coffees of 4.50 and 3.50 for food and a rent of 1200 for the home. Against a budget of 2000 they give food 8, home 1200, in that order, 1208 spent and 792 remaining. |

## Left out

- The console: `input()`, `print`, the banners, the category menu and the `green` colour wrapper (buget_tacker.py:119-120) only show what the core computes. The prompts' answers are parameters.
- The `float()` and `int()` conversions of typed answers: each answer arrives already converted, with `None` for a conversion that raises `ValueError`.
- A retry loop whose answers are never acceptable keeps the program asking as long as input keeps coming. When input ends, `input()` raises `EOFError` (buget_tacker.py:27, 50). The `except ValueError` handlers do not catch it, so the program stops with a traceback. The methods take a finite sequence of answers and return `None` when it runs out, in place of that crash.
- The file system: `open`, appending, `readlines`, `os.path.exists` and the `IOError` handlers (buget_tacker.py:64-67, 72-89).
  - Presence of the file is the `Store` input.
  - The file's content is the sequence of the lines `readlines` returns. Python's splitting of the text at line breaks, universal newlines included, is not modelled.
  - Appending is modelled as one more element, `lines + [FormatLine(e, show)]`. `ExpenseFile.AppendThenLoad` requires what makes this true: every old line ends with a newline, which for the lines of `readlines` comes down to the old text ending with one or being empty, and the new line holds no line break except its final one.
- A `ValueError` raised while reading the file is not caught by the program, which then stops (buget_tacker.py:81-89). The model returns it as `Report.Malformed` instead of modelling the crash.
- The clock: `datetime.datetime.now()` is the `now` parameter. The `calendar` library is replaced by `Calendar.DaysInMonth`.
- Floating point: amounts are exact `real`s.
  - Rounding in sums and in the division is not modelled, and neither is the `:.2f` formatting.
  - Neither are NaN and +inf. The amount prompt accepts both, because `nan < 0` and `inf < 0` are false. It refuses -inf, which is negative.
  - `str(float)` and `float(str)` are the `show` and `toNumber` parameters. The round trip assumes `toNumber(show(x)) == Some(x)`.
- Python's dict is a `map` for the entries plus a `seq` for the key order. The printing loop at buget_tacker.py:100-101 only prints them.
- `main` (buget_tacker.py:7-19), with its fixed file name and budget of 2000, only wires the three steps together.
