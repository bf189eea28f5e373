# Glazomer lens-wear log, modelled in Dafny

Glazomer is a small Telegram bot that keeps track of how many times one
pair of contact lenses has been put on. It keeps a text file `history.txt`
with one date per line, written `DD.MM.YYYY` and followed by a newline.
It answers three commands:

- `/put_on` records today, unless today is already the last date on file.
  The reply says, in Russian, which wear this is. From the 14th wear on it
  adds that it is time for a new pair.
- `/throw_away` copies the log into `history_old.txt`, replacing what was
  there, and empties the log.
- `/info` gives the total, with the Russian count noun, and lists the dates.

This project models that core of `main.py` and proves properties about it.
It has four modules:

- `Numerals` (`numerals.dfy`): the ordinal phrase of `pick_up_ending` and
  the cardinal phrase of `pick_up_ending_2`, including the decimal
  rendering of the number.
- `Text` (`text.dfy`): the whitespace set of Python's `str.strip`, the
  cutting of file text into lines at each "\n", and substring search.
  `readlines` keeps the "\n" on each line and gives no empty last piece,
  whereas `SplitLines` drops the "\n" and gives an empty last piece after a
  final "\n". The two agree once each line is stripped and blank lines are
  dropped, which is all `get_history` does with them.
- `History` (`history.dfy`): calendar dates restricted to four-digit years,
  the `DD.MM.YYYY` format and its strict parse, what `get_history` reads
  from a file's text (`Load`), and what `save_history` writes (`Serialize`).
- `Bot` (`bot.dfy`): the commands.
  - A class `Store` whose fields are the texts of the two files. Its
    methods `SaveHistory`, `PutOn`, `ClearHistory` and `Info` change or read
    those fields step by step, as the source does. `ThrowAwayThenInfo`
    runs `/throw_away` and then `/info`.
  - A pure reference function for `/put_on` (`PutOnStep`) and its
    repetition over several days (`PutOnRun`).
  - The reply texts.

The clock and the random emoji choice are parameters. `today` is a
`Date`, and `choice` is an index into the five acknowledgement emoji.

## Model

| member | source | states |
|---|---|---|
| Numerals.Decimal | main.py:104 | `{n}` renders at least one digit, only digits, and no leading zero |
| Numerals.DecimalReadsBack | main.py:104 | the digits of `{n}` read back as `n` |
| Numerals.Ordinal | main.py:102-108 | no contract of its own: `pick_up_ending(n)`, the digits of `n` followed by `OrdinalEnding(n)`; see `OrdinalEndings` |
| Numerals.OrdinalEnding | main.py:103-108 | no contract of its own: the teen test first, then the last digit picks "-ый", "-ий" or "-ой"; see `OrdinalEndings` |
| Numerals.Cardinal | main.py:110-114 | no contract of its own: `pick_up_ending_2(n)`, the digits of `n` followed by `CountNoun(n)`; see `CardinalEndings` |
| Numerals.CountNoun | main.py:111-114 | no contract of its own: "раза" after last digit 2-4 outside 12-14, "раз" otherwise; see `CardinalEndings` |
| Numerals.OrdinalEndings | main.py:102-108 | the ordinal takes "-ый" iff the last two digits are 11-19 or the last digit is 0, 1, 4, 5 or 9; "-ий" iff not a teen and the last digit is 3; "-ой" iff not a teen and the last digit is 2, 6, 7 or 8 |
| Numerals.OrdinalExamples | main.py:102-108 | 2 → "2-ой", 3 → "3-ий", 22 → "22-ой", 23 → "23-ий" |
| Numerals.OrdinalTeenExamples | main.py:103-104 | 11, 13 and 14 take "-ый" because of the teen test, and so does 21 |
| Numerals.CardinalEndings | main.py:110-114 | the count takes "раза" iff the last digit is 2-4 and the last two digits are not 12-14; otherwise "раз" |
| Numerals.CardinalExamples | main.py:110-114 | 2 → "2 раза", 3 → "3 раза", 5 → "5 раз", 22 → "22 раза" |
| Numerals.CardinalTeenExamples | main.py:111 | 12 and 13 take "раз" because of the exception, and so does 21 |
| Numerals.EndingsRepeatEveryHundred | main.py:102-114 | adding 100 to `n` does not change either ending |
| Text.Strip | main.py:82-83 | `strip()` never lengthens its input, and its result neither starts nor ends with whitespace |
| Text.StripEmpty | main.py:82 | a line is filtered out (strips to nothing) iff every character is whitespace |
| Text.StripPadded | main.py:83 | whitespace padding around a text that has no whitespace at either end is removed exactly |
| Text.SplitLines | main.py:82 | the text cut at each "\n" into at least one piece, the last one possibly empty; see `SplitLinesOfLine` and `SplitLinesJoin` |
| Text.SplitLinesOfLine | main.py:82 | text without a newline is one line |
| Text.SplitLinesJoin | main.py:82 | the lines of `u + "\n" + v` are the lines of `u` followed by the lines of `v` |
| History.DaysInMonth | main.py:83 | months have 28 to 31 days, and 29 exactly for February of a Gregorian leap year |
| History.FixedDigits | main.py:89 | `%d`, `%m` and `%Y` print exactly the field width in digits |
| History.FixedDigitsReadBack | main.py:83-89 | zero-padded digits read back as the number written |
| History.ReadDecimalWritesBack | main.py:83-89 | a digit string is the zero-padded form of its own value, so each value has one spelling |
| History.FormatDate | main.py:89 | `%d.%m.%Y` is ten characters: two digits, a dot, two digits, a dot, four digits |
| History.ParseDate | main.py:83 | no contract of its own: strict `strptime(..., '%d.%m.%Y')`, two, two and four digits with dots, naming a real day, else failure; see `ParseFormat` and `FormatParse` |
| History.ParseFormat | main.py:83-89 | parsing the formatted date gives the same date back |
| History.FormatParse | main.py:83 | a string the parser accepts is exactly the formatted form of the date it yields |
| History.Serialize | main.py:86-89 | no contract of its own: the text `save_history` writes, each date formatted and followed by "\n"; see `SerializeSnoc`, `SerializeEmpty` and `LoadSerialize` |
| History.SerializeSnoc | main.py:86-89 | writing one more date appends exactly that date's line |
| History.SerializeEmpty | main.py:86-89 | the written text is empty iff there are no dates |
| History.ParseLine | main.py:82-83 | no contract of its own: a blank line gives no date, a line that parses after stripping gives its date, anything else fails; see `FormattedLine` and `ParseLinesSkipsBlank` |
| History.Load | main.py:80-84 | no contract of its own: `get_history`, the lines of the text read in order; see `LoadSerialize`, `LoadEmpty` and the blank-line lemmas |
| History.ParseLines | main.py:82-83 | a successful read gives no more dates than there are lines |
| History.ParseLinesSucceeds | main.py:82-83 | the read succeeds iff every line is blank or parses as a date; one bad line fails the whole read |
| History.ParseLinesAppend | main.py:82-83 | reading two blocks of lines reads each block and concatenates the results |
| History.LoadEmpty | main.py:80-84 | an empty file reads as no dates |
| History.FormatDateHasNoNewline | main.py:89 | a formatted date holds no newline, so each date stays on its own line |
| History.FormattedLine | main.py:82-89 | a written line is not blank and reads back as its date |
| History.LoadSerialize | main.py:80-89 | reading what `save_history` wrote gives back the same dates in the same order |
| History.ParseLinesSkipsBlank | main.py:82-83 | a whitespace-only line at any position among the file's lines does not change what is read |
| History.LoadSkipsBlankLine | main.py:82 | a whitespace-only line between two line breaks does not change what is read |
| History.LoadSkipsBlankEnds | main.py:82 | a whitespace-only first line, or a whitespace-only last line without a closing line break, does not change what is read |
| Bot.PutOnMessage | main.py:42-46 | no contract of its own: "Отметил", the emoji, a line break, the ordinal line, and the new-pair notice from 14 on; see `PutOnMessageShape` and `PutOnMessageNotice` |
| Bot.PutOnStep | main.py:34-46 | no contract of its own: `/put_on` on the log's text, giving the outcome and the new text; see `PutOnOutcome`, `PutOnTwice` and `Store.PutOn` |
| Bot.PutOnMessageShape | main.py:44-46 | the reply is the "Отметил" line, one newline, then the ordinal line, plus the notice from 14 on; neither line holds a newline |
| Bot.NoNoticeBelowThreshold | main.py:45-46 | below 14 wears the new-pair notice occurs nowhere in the reply |
| Bot.PutOnMessageNotice | main.py:44-46 | the reply contains the ordinal of the count, and contains the new-pair notice iff the count is at least 14 |
| Bot.PutOnOutcome | main.py:34-46 | on a readable log, a repeat of the last date leaves the text unchanged and replies with the duplicate; any other date is appended, the reply carries count + 1 and the chosen emoji, and the new text reads back as the old dates plus today |
| Bot.PutOnTwice | main.py:34-41 | a second `/put_on` on the same day, with any emoji choice, replies with the duplicate and leaves the log's text as the first call left it |
| Bot.DuplicateDayExample | main.py:36-38 | with 1 and 2 January 2024 on file, `/put_on` on 2 January reports the duplicate and leaves the file unchanged |
| Bot.PutOnRun | main.py:34-46 | no contract of its own: `/put_on` repeated once per day of a list, each call with its own emoji draw, collecting the outcomes and the final text; see the run lemmas below |
| Bot.MarkedReplies | main.py:42-46 | the expected replies of a run: one per draw, the k-th reporting wear number `from + k` with the emoji of the k-th draw |
| Bot.PutOnRunGrows | main.py:34-46 | consecutive `/put_on` calls, each on a day other than the one before and each with any emoji draw, never report a duplicate; the k-th call (from 0) reports wear number `old length + k + 1` with the emoji it drew |
| Bot.PutOnRunLog | main.py:40-41 | after such a run, whatever the draws, the file holds the old dates followed by all the new days, written out afresh |
| Bot.PutOnRunLoads | main.py:34-41 | after such a run, whatever the draws, the file reads back as the old dates followed by all the new days |
| Bot.PutOnKeepsNoRepeatedDay | main.py:34-41 | on a readable log with no day twice in a row, `/put_on` on any day leaves a log that reads back and still has no day twice in a row |
| Bot.PutOnRunKeepsNoRepeatedDay | main.py:34-41 | the same for any run of `/put_on` calls, on any days and with any emoji draws |
| Bot.ClockBackExample | main.py:36-41 | with 1 and 2 January 2024 on file, `/put_on` on 1 January is recorded as the 3rd wear, so 1 January is on file twice, two entries apart |
| Bot.SummaryLine | main.py:74 | no contract of its own: the summary line with the count phrase in bold; see `InfoLines` |
| Bot.Entry | main.py:76 | no contract of its own: `no) DD.MM.YYYY`; see `EntryReadsBack` |
| Bot.Listing | main.py:75-76 | no contract of its own: one "\n"-prefixed numbered line per date, numbered from 1; see `ListingLines` |
| Bot.InfoMessage | main.py:74-76 | no contract of its own: the summary, a line break, then the listing; see `InfoLines` and `Store.Info` |
| Bot.InfoLines | main.py:74-76 | the `/info` report's lines are: the summary with the count phrase, an empty line, then `k) DD.MM.YYYY` for the k-th date in file order |
| Bot.ListingLines | main.py:75-76 | the listing splits into an empty first line and one numbered line per date, in order |
| Bot.ListingPrefix | main.py:75-76 | each loop step extends the report by exactly the next numbered line |
| Bot.EntryReadsBack | main.py:76 | a listing line starts with its number in decimal and ends with its date, and both read back |
| Bot.Store.constructor | main.py:159-162 | at start-up a missing log file becomes an empty one; the archive file is as found |
| Bot.Store.SaveHistory | main.py:86-89 | the log's text becomes exactly the serialized dates; the archive is untouched |
| Bot.Store.PutOn | main.py:34-47 | the outcome and the new log text are those of `PutOnStep`; the text sent is the rendered reply; the archive is untouched |
| Bot.Store.ClearHistory | main.py:91-99 | an empty log changes nothing; otherwise the archive, created if missing, holds exactly the old log text, and the log is empty |
| Bot.Store.Info | main.py:69-77 | an unreadable log gives no reply; an empty log gives the empty-history text; otherwise the reply carries the count and the full report, built line by line; the text sent is the rendered reply |
| Bot.Store.ThrowAwayThenInfo | main.py:48-99 | after `/throw_away`, `/info` always answers that the history is empty; the log is empty and the archive holds the old text unless that was already empty |

## Left out

- Telegram plumbing (main.py:117-169) is not modelled: handlers, sending
  messages and stickers, markdown parse mode, the polling loop, logging and
  the error handler.
- The `MY_ID` check is not modelled. In the source, a foreign chat gets a
  quote and the command then carries on anyway, since there is no `return`.
  So every command behaves the same whatever the chat, and that is how the
  model treats them.
- The quote (`send_some_wisdom`) and its random choice are not modelled.
- The `COMMANDS_SET` first-call branch of `/info` (main.py:62-67) is not
  modelled. It registers the command menu once and answers with an emoji.
- The clock and the Europe/Moscow time zone are not modelled. `today` is a
  parameter.
- `random.choice` of the emoji is a parameter `choice`.
- File I/O errors are not modelled: permissions, a missing file after
  start-up, encoding errors. Non-UTF-8 content is also left out, because
  files are Dafny strings.
- Python's universal-newline mode is not modelled. It turns "\r\n" and "\r"
  into "\n" on read. The model splits lines on "\n" only, and treats "\r"
  as whitespace that `strip` removes.
- History.ParseDate: accepts only the exact form `save_history` writes: two
  ASCII digits, a dot, two ASCII digits, a dot, four ASCII digits, with years
  1000-9999. Python's `strptime` with `%d.%m.%Y` also accepts inputs the
  model rejects:
  - years 0001-0999 written with leading zeros, e.g. `01.01.0999`;
  - a one-digit or space-padded day;
  - a one-digit month;
  - non-ASCII Unicode decimal digits, which its `\d` matches.
- Bot.Store.ClearHistory: treats the file size of zero bytes as "the text is
  empty". It copies the text exactly, ignoring newline translation.
- The duplicate check compares today with the last date on file only, as
  the code does (main.py:36). So the log can hold the same day twice, not
  in a row: after a hand edit, or when `/put_on` runs on a day before the
  last one on file, as when the clock is set back (`ClockBackExample`).
  What `/put_on` does keep is that no day is on file twice in a row
  (`PutOnKeepsNoRepeatedDay`, `PutOnRunKeepsNoRepeatedDay`).
- The archive keeps only the latest snapshot, as the code does. Each reset
  overwrites the previous one.
