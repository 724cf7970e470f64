# Daily folders: a verified model of `generacion_carpetas.py`

The script `docs/imagenes_diarias/generacion_carpetas.py` creates one folder per
calendar day inside a destination directory. Its options are:

- `--dest`, the destination, `.` by default.
- `--start` and `--end`, the range of dates written `AAAA-MM-DD`, from
  2025-09-08 to 2026-01-03 by default.
- `--format`, the folder-name template, `{iso}_{weekday}` by default. It can
  use the placeholders `{iso}`, `{dd}`, `{mm}`, `{yyyy}` and `{weekday}`.
- `--dry-run`, which only announces what would be created.

This project models the script in Dafny and proves what it promises. The
modules follow the script's own parts:

| module | file | models |
|---|---|---|
| `Wrappers` | `wrappers.dfy` | `Option` and `Result` |
| `Decimal` | `decimal.dfy` | `f"{n}"`, `f"{n:02d}"` and `int(part)` |
| `Calendar` | `calendar.dfy` | Python's `datetime.date`: validity, leap years, comparison, `toordinal()`, `+ timedelta(days=1)`, `weekday()`, `isoformat()` |
| `DateParser` | `date_parser.dfy` | `str.split("-")`, then `int` on each part, then `date(*parts)` |
| `FormatString` | `format_string.dfy` | `str.format` with keyword fields |
| `FolderNaming` | `folder_naming.dfy` | `WEEKDAYS_ES` and `nombre_carpeta` |
| `DateSequence` | `date_sequence.dfy` | `generar_fechas`: a specification function and a `while` loop proved against it |
| `FolderCreator` | `folder_creator.dfy` | `main`: a pure specification of a run (`RunSpec`), a `FileSystem` class holding the set of existing paths, and the `Run` method with its `for` loop, proved to do what `RunSpec` says |

A date is a `Date(year, month, day)` of unbounded integers. `Calendar.Valid`
says when it is a date Python accepts: years 1 to 9999, the right number of
days in the month. Dates are numbered as `toordinal()` numbers them, with
0001-01-01 as day 1.

The filesystem is the set of paths that exist. What `main` prints about paths
is kept as a log of reports:

- `DestinationMissing`: "La carpeta destino no existe. Se creará:"
- `WouldCreate`: "[DRY-RUN] Crear:"
- `Created`: "Creada:"
- `AlreadyExists`: "Ya existe:"

A run ends in one of three ways:

- `Finished`.
- `Aborted`: a date did not parse, or the start is after the end.
- `Crashed`: an exception escaped `main`. The template can fail (`KeyError`,
  `IndexError` or `ValueError`), and stepping past 9999-12-31 raises `OverflowError`. Both are
  modelled as the script behaves; they are not preconditions.

## Model

All source paths are relative to the repository root. The one source file is
`docs/imagenes_diarias/generacion_carpetas.py`.

| member | source | states |
|---|---|---|
| Decimal.Show | docs/imagenes_diarias/generacion_carpetas.py:20 | `f"{n}"` is a non-empty digit string that reads back as `n`. It has a leading zero only for 0, and it has exactly as many digits as `n` needs. |
| Decimal.ShowWidth | docs/imagenes_diarias/generacion_carpetas.py:18-20 | The unpadded form of `n` fits in `k` digits exactly when `n < 10^k`. |
| Decimal.ShowPadded | docs/imagenes_diarias/generacion_carpetas.py:18-19 | `f"{n:02d}"` is a digit string that reads back as `n`. Its length is the width, or the length of `n`'s digits if that is longer. |
| Decimal.ShowPaddedWidth | docs/imagenes_diarias/generacion_carpetas.py:18-19 | A number below `10^width`, padded, has exactly `width` digits. |
| Decimal.ParseInt | docs/imagenes_diarias/generacion_carpetas.py:35-36 | `int(p)` succeeds exactly on ASCII digits with at most one leading `+` or `-`, and gives the signed value they spell. |
| Decimal.ParseDigitsOnly | docs/imagenes_diarias/generacion_carpetas.py:35-36 | `int` of a digit string is the number it spells. |
| Decimal.ParseShowPadded | docs/imagenes_diarias/generacion_carpetas.py:18-19 | Round trip: `int(f"{n:0Wd}") == n` for every width. |
| Calendar.DaysInMonth | docs/imagenes_diarias/generacion_carpetas.py:37-38 | Every month has 28 to 31 days. It has 29 exactly for February of a leap year. |
| Calendar.Valid | docs/imagenes_diarias/generacion_carpetas.py:37-38 | `date(y, m, d)` accepts no day past 31 and February 29 only in a leap year. It accepts every day from 1 to 28 of every month of years 1 to 9999. |
| Calendar.Before | docs/imagenes_diarias/generacion_carpetas.py:43 | `start_date > end_date` compares year, then month, then day. `a < b` holds exactly when the dates differ and `a` is at most `b` in that order. |
| Calendar.ToOrdinal | docs/imagenes_diarias/generacion_carpetas.py:10 | `toordinal()` of a date lies after every day of the earlier years and within its own year. |
| Calendar.Succ | docs/imagenes_diarias/generacion_carpetas.py:12 | `+ timedelta(days=1)` always gives a later date. It gives a valid date exactly when the date is not 9999-12-31. |
| Calendar.Weekday | docs/imagenes_diarias/generacion_carpetas.py:21 | `weekday()` is in 0..6, so it always indexes `WEEKDAYS_ES`. |
| Calendar.IsoFormat | docs/imagenes_diarias/generacion_carpetas.py:17 | `isoformat()` is 10 characters `YYYY-MM-DD`. Its three digit groups read back as the year, month and day. |
| Calendar.BeforeIffOrdinal | docs/imagenes_diarias/generacion_carpetas.py:10 | Comparing two valid dates field by field (`<`, `<=` on `date`) is the same as comparing their ordinals. This holds in both directions. |
| Calendar.OrdinalInjective | docs/imagenes_diarias/generacion_carpetas.py:10 | Two valid dates have the same ordinal exactly when they are equal. |
| Calendar.OrdinalRange | docs/imagenes_diarias/generacion_carpetas.py:37-38 | Every valid date has an ordinal from 1 to 3652059 (`date.min` to `date.max`). |
| Calendar.BeforeTotal | docs/imagenes_diarias/generacion_carpetas.py:43 | For any two valid dates, exactly one holds: the first is earlier, they are equal, or the second is earlier. |
| Calendar.MaxDateIsLast | docs/imagenes_diarias/generacion_carpetas.py:10-12 | No valid date comes after 9999-12-31. |
| Calendar.MinOrdinalValue | docs/imagenes_diarias/generacion_carpetas.py:10 | 0001-01-01 has ordinal 1. |
| Calendar.MaxOrdinalValue | docs/imagenes_diarias/generacion_carpetas.py:12 | 9999-12-31 is valid and has ordinal 3652059. |
| Calendar.SuccStep | docs/imagenes_diarias/generacion_carpetas.py:12 | Adding one day gives a valid date exactly when the date is not 9999-12-31; there Python raises `OverflowError`. Below 9999-12-31 the result is one ordinal later and compares greater. |
| Calendar.SuccIsNextOrdinal | docs/imagenes_diarias/generacion_carpetas.py:12 | `d + timedelta(days=1)` is the one valid date whose ordinal is one more than `d`'s. This holds in both directions. |
| Calendar.SuccFebruary | docs/imagenes_diarias/generacion_carpetas.py:12 | In a leap year, February 28 is followed by February 29, then March 1. Otherwise 28 is followed by March 1, and February 29 is not a date. |
| Calendar.WeekdaySucc | docs/imagenes_diarias/generacion_carpetas.py:21 | From each day to the next, the weekday index advances by 1 mod 7. |
| Calendar.WeekdayExamples | docs/imagenes_diarias/generacion_carpetas.py:21 | 0001-01-01 and 2025-09-08 are Mondays, index 0. |
| DateParser.Split | docs/imagenes_diarias/generacion_carpetas.py:35-36 | `split("-")` gives at least one part, and no part contains the separator. |
| DateParser.JoinSplit | docs/imagenes_diarias/generacion_carpetas.py:35-36 | Joining the parts of a split with the separator gives back the text. |
| DateParser.SplitJoin | docs/imagenes_diarias/generacion_carpetas.py:35-36 | Splitting the join of separator-free parts gives back the parts. |
| DateParser.SplitPlain | docs/imagenes_diarias/generacion_carpetas.py:35-36 | Text without the separator splits into itself alone. |
| DateParser.SplitAround | docs/imagenes_diarias/generacion_carpetas.py:35-36 | Text, one separator, then more text splits into the first part followed by the split of the rest. |
| DateParser.ParseDate | docs/imagenes_diarias/generacion_carpetas.py:34-41 | A parse that succeeds gives a valid date: `date(*parts)` accepts nothing else, and every failure takes the `except` branch (`None`). |
| DateParser.ParseDigitTriple | docs/imagenes_diarias/generacion_carpetas.py:35-38 | Three digit groups joined by `-`, padded or not, are accepted exactly when their numbers form a valid date, and then give that date. |
| DateParser.ParseIsoFormat | docs/imagenes_diarias/generacion_carpetas.py:35-38 | Round trip: parsing `isoformat()` of any valid date gives the date back. |
| DateParser.ParseNeedsThreeParts | docs/imagenes_diarias/generacion_carpetas.py:37-38 | Any text not splitting into exactly three parts is rejected, as `date(*parts)` raises on the wrong number of arguments. |
| DateParser.ParseRejectsFebruary30 | docs/imagenes_diarias/generacion_carpetas.py:37-41 | `"2025-02-30"` is rejected. |
| DateParser.ParseRejectsSlashes | docs/imagenes_diarias/generacion_carpetas.py:35-41 | `"2025/09/08"` is rejected. |
| DateParser.ParseAcceptsUnpadded | docs/imagenes_diarias/generacion_carpetas.py:35-38 | `"2025-9-8"` parses to 2025-09-08, because `int` does not need padding. |
| DateParser.ParseAcceptsPadded | docs/imagenes_diarias/generacion_carpetas.py:35-38 | The default `--start`, `"2025-09-08"`, parses to 2025-09-08. |
| DateParser.ParseAcceptsDefaultEnd | docs/imagenes_diarias/generacion_carpetas.py:35-38 | The default `--end`, `"2026-01-03"`, parses to 2026-01-03. |
| FormatString.IndexOf | docs/imagenes_diarias/generacion_carpetas.py:16 | Finds the first occurrence of a character, or reports that there is none. |
| FormatString.Format | docs/imagenes_diarias/generacion_carpetas.py:16-22 | `fmt.format(**fields)` fails with `KeyError` only for a placeholder name that is not among the keywords. |
| FormatString.FormatPlainText | docs/imagenes_diarias/generacion_carpetas.py:16 | Text without braces formats as itself. |
| FormatString.FormatField | docs/imagenes_diarias/generacion_carpetas.py:16-22 | `{name}` is replaced by the keyword's value. A name that is not a keyword raises `KeyError`. |
| FormatString.FormatEscapes | docs/imagenes_diarias/generacion_carpetas.py:16 | `{{` and `}}` give one literal brace each. |
| FormatString.FormatUnclosed | docs/imagenes_diarias/generacion_carpetas.py:16 | A `{` that nothing closes raises `ValueError`. |
| FormatString.FormatStrayClose | docs/imagenes_diarias/generacion_carpetas.py:16 | A single `}` raises `ValueError`. |
| FormatString.FormatTextThen | docs/imagenes_diarias/generacion_carpetas.py:16 | Brace-free text in front of a template that formats comes first in the output. |
| FormatString.FormatFieldThen | docs/imagenes_diarias/generacion_carpetas.py:16 | A known field in front of a template that formats puts its value first. |
| FormatString.FormatFieldAlone | docs/imagenes_diarias/generacion_carpetas.py:16 | A template holding one known field formats as that field's value. |
| FormatString.FormatTwoFields | docs/imagenes_diarias/generacion_carpetas.py:16 | `{a}sep{b}` gives a's value, then the separator, then b's value. |
| FormatString.FormatFieldTextThen | docs/imagenes_diarias/generacion_carpetas.py:16 | A known field and some text, in front of a template that formats, come out in that order. |
| FormatString.FormatAppend | docs/imagenes_diarias/generacion_carpetas.py:16 | When the first half of a template formats, the whole template formats as that output followed by the second half's result; an error in the second half comes out as it is. |
| FormatString.IndexOfPrefix | docs/imagenes_diarias/generacion_carpetas.py:16 | A character present in the first half of text is found there. |
| FormatString.IndexOfAt | docs/imagenes_diarias/generacion_carpetas.py:16 | When a character first occurs at position `k`, the search returns `k`. |
| FormatString.FormatUnknownFieldFails | docs/imagenes_diarias/generacion_carpetas.py:16-22 | After a part that formats, an unknown placeholder fails with `KeyError` for its name, whatever follows it. |
| FormatString.FormatOutcomeIgnoresValues | docs/imagenes_diarias/generacion_carpetas.py:16-22 | Whether a template formats depends only on which keywords exist, not on their values. Failures are identical. |
| FolderNaming.WeekdayName | docs/imagenes_diarias/generacion_carpetas.py:21 | A date's weekday name is always an entry of `WEEKDAYS_ES`. |
| FolderNaming.FolderFields | docs/imagenes_diarias/generacion_carpetas.py:16-22 | `nombre_carpeta` passes exactly the five keywords `iso`, `dd`, `mm`, `yyyy` and `weekday`. |
| FolderNaming.FolderName | docs/imagenes_diarias/generacion_carpetas.py:14-22 | `nombre_carpeta` fails with `KeyError` only for a placeholder outside `iso`, `dd`, `mm`, `yyyy` and `weekday`. |
| FolderNaming.FieldShapes | docs/imagenes_diarias/generacion_carpetas.py:17-21 | `iso` is 10 characters with dashes at positions 4 and 7. `dd` and `mm` are two digits reading back as the day and month. `yyyy` is unpadded digits of the year, with no leading zero. `weekday` is the `WEEKDAYS_ES` entry of `weekday()`. |
| FolderNaming.YearFieldsDiffer | docs/imagenes_diarias/generacion_carpetas.py:17-20 | `yyyy` equals the year part of `iso` exactly when the year is at least 1000. Below that, `iso` pads and `yyyy` does not. |
| FolderNaming.UnknownPlaceholderFails | docs/imagenes_diarias/generacion_carpetas.py:15-22 | A template naming any placeholder other than the five fails with `KeyError` instead of producing a name. |
| FolderNaming.FolderNameOutcomeIgnoresDate | docs/imagenes_diarias/generacion_carpetas.py:16-22 | Whether a template works does not depend on the date. A failure is the same for every date. |
| FolderNaming.DefaultTemplateShape | docs/imagenes_diarias/generacion_carpetas.py:16-22 | The default template gives the ISO date, `_`, and the Spanish weekday name. |
| FolderNaming.DefaultTemplateExample | docs/imagenes_diarias/generacion_carpetas.py:16-22 | On 2025-09-08 the default template gives `2025-09-08_Lunes`. |
| FolderNaming.IsoThenWeekday | docs/imagenes_diarias/generacion_carpetas.py:29 | `{iso}_{weekday}` formats as the two values joined by `_`. |
| FolderNaming.IsoExample | docs/imagenes_diarias/generacion_carpetas.py:17 | `isoformat()` of 2025-09-08 is `"2025-09-08"`. |
| FolderNaming.MondayExample | docs/imagenes_diarias/generacion_carpetas.py:6 | 2025-09-08 is named `Lunes`. |
| FolderNaming.DayMonthYear | docs/imagenes_diarias/generacion_carpetas.py:16-20 | `{dd}-{mm}-{yyyy}` formats as the three values joined by `-`. |
| FolderNaming.DayMonthYearFields | docs/imagenes_diarias/generacion_carpetas.py:18-20 | For 2025-01-05, `dd` is `05`, `mm` is `01` and `yyyy` is `2025`. |
| FolderNaming.DayMonthYearExample | docs/imagenes_diarias/generacion_carpetas.py:16-22 | `{dd}-{mm}-{yyyy}` on 2025-01-05 gives `05-01-2025`. |
| DateSequence.DateRange | docs/imagenes_diarias/generacion_carpetas.py:8-12 | The generator yields `ord(end) - ord(start) + 1` dates, or none when `start > end`. The `i`-th is the valid date `i` days after `start`. |
| DateSequence.RangeUnfold | docs/imagenes_diarias/generacion_carpetas.py:9-12 | When `start <= end` and `start` is not 9999-12-31, the range is `start` followed by the range from the next day. |
| DateSequence.RangeEnds | docs/imagenes_diarias/generacion_carpetas.py:9-11 | The range is non-empty exactly when `start <= end`. It then begins with `start` and ends with `end`. |
| DateSequence.RangeConsecutive | docs/imagenes_diarias/generacion_carpetas.py:12 | Each yielded date is the day after the previous one. |
| DateSequence.RangeAscending | docs/imagenes_diarias/generacion_carpetas.py:10-12 | The dates are strictly ascending, so none repeats. |
| DateSequence.RangeMembers | docs/imagenes_diarias/generacion_carpetas.py:8-12 | A date is yielded exactly when it is a valid date with `start <= date <= end`. |
| DateSequence.RangeSingleton | docs/imagenes_diarias/generacion_carpetas.py:10-12 | `start == end` yields exactly that one date. |
| DateSequence.RangeEmpty | docs/imagenes_diarias/generacion_carpetas.py:10 | `start > end` yields nothing. |
| DateSequence.RangeWeekdays | docs/imagenes_diarias/generacion_carpetas.py:12 | The weekday advances by one, mod 7, from each yielded date to the next. |
| DateSequence.WeekdayAfter | docs/imagenes_diarias/generacion_carpetas.py:21 | A date `i` days after another falls `i` weekdays later, mod 7. |
| DateSequence.DefaultRangeLength | docs/imagenes_diarias/generacion_carpetas.py:27-28 | The default range, 2025-09-08 to 2026-01-03, holds 118 dates. |
| DateSequence.GenerateDates | docs/imagenes_diarias/generacion_carpetas.py:8-12 | The `while` loop yields exactly `DateRange(start, end)`. It overflows exactly when the range is non-empty and ends at 9999-12-31. |
| FolderCreator.JoinPathShape | docs/imagenes_diarias/generacion_carpetas.py:60 | `dest / name` is `dest` itself for an empty name. Otherwise it starts with `dest`, ends with the name, and is longer than both. |
| FolderCreator.Decide | docs/imagenes_diarias/generacion_carpetas.py:61-68 | One date's folder: in dry-run mode it is announced and nothing changes. Otherwise it is reported `Creada` exactly when it was absent, and afterwards it exists. |
| FolderCreator.Visit | docs/imagenes_diarias/generacion_carpetas.py:58-68 | The loop over the dates' names only ever adds paths, and none in dry-run mode. |
| FolderCreator.VisitReports | docs/imagenes_diarias/generacion_carpetas.py:58-68 | The loop makes one report per name until the first name that fails, whose error stops it. The `i`-th report is about the `i`-th name's path and is never the destination's announcement; with an empty template that path is the destination itself. |
| FolderCreator.NamesAgree | docs/imagenes_diarias/generacion_carpetas.py:58-59 | Over a non-empty range the first name is that of `start`. If the template renders on `start`, it renders on every date. |
| FolderCreator.VisitFails | docs/imagenes_diarias/generacion_carpetas.py:59 | A template that fails on the first date stops the loop before any report or change. |
| FolderCreator.VisitDryRun | docs/imagenes_diarias/generacion_carpetas.py:61-62 | In dry-run mode every folder is reported as `[DRY-RUN] Crear`, once per date, and the filesystem is unchanged. |
| FolderCreator.VisitCreates | docs/imagenes_diarias/generacion_carpetas.py:63-68 | Without dry-run, the `i`-th folder is `Created` exactly when it was neither there before nor made for an earlier date; otherwise `Ya existe`. Afterwards the filesystem is the old one plus the folders, nothing else. |
| FolderCreator.CreatesStep | docs/imagenes_diarias/generacion_carpetas.py:63-68 | The first folder's report, put in front of the rest's reports, keeps the "created exactly when absent" rule. |
| FolderCreator.TargetsCons | docs/imagenes_diarias/generacion_carpetas.py:58-60 | The paths are the first date's path followed by the paths of the remaining dates. |
| FolderCreator.VisitAgain | docs/imagenes_diarias/generacion_carpetas.py:63-68 | When every folder already exists, the loop changes nothing and reports `Ya existe` for each one. |
| FolderCreator.VisitTwice | docs/imagenes_diarias/generacion_carpetas.py:63-68 | Running the loop a second time over what the first left changes nothing. It reports each folder of the first pass as `Ya existe`, one per name, in order. |
| FolderCreator.RunAborts | docs/imagenes_diarias/generacion_carpetas.py:34-45 | A run aborts with "invalid date" exactly when a date does not parse. It aborts with "start after end" exactly when both parse and `start > end`. Either way it reports nothing and leaves the filesystem untouched. |
| FolderCreator.PrepareDestination | docs/imagenes_diarias/generacion_carpetas.py:53-56 | A missing destination is announced once and made unless in dry-run mode. A present one is neither announced nor changed. |
| FolderCreator.RunSpec | docs/imagenes_diarias/generacion_carpetas.py:34-68 | `main` only ever adds paths, none in dry-run mode. When it returns early it reports nothing and changes nothing. |
| FolderCreator.RunRange | docs/imagenes_diarias/generacion_carpetas.py:47-68 | Past the checks, `main` never returns early. It only adds paths, none in dry-run mode, and otherwise the destination is among them. |
| FolderCreator.RangeNeverAborts | docs/imagenes_diarias/generacion_carpetas.py:47-68 | Past the checks, a run never aborts. |
| FolderCreator.RunDryRun | docs/imagenes_diarias/generacion_carpetas.py:53-62 | A dry run leaves the filesystem unchanged. It only reports a missing destination and folders it would create. |
| FolderCreator.RangeDryRun | docs/imagenes_diarias/generacion_carpetas.py:53-62 | Once the dates have been read, a dry run changes nothing. It announces a missing destination first. If the template fails on the start date, the run stops with that error before any folder. Otherwise it reports `[DRY-RUN] Crear` once per date, for that date's path, in order. |
| FolderCreator.RangeCreates | docs/imagenes_diarias/generacion_carpetas.py:53-68 | A real run creates a missing destination and announces it. A failing template crashes with its error before any folder. Otherwise the `i`-th date's folder is created exactly when absent and reported as existing otherwise. The filesystem gains the destination and the folders, nothing else. The run ends normally unless the range reaches 9999-12-31, where it overflows. |
| FolderCreator.RunIdempotent | docs/imagenes_diarias/generacion_carpetas.py:53-68 | A second real run on what the first left behind changes nothing and creates nothing, and it ends the same way. Each folder report of the first run comes back as `Ya existe` for the same path, in order. |
| FolderCreator.RangeIdempotent | docs/imagenes_diarias/generacion_carpetas.py:53-68 | The same as `RunIdempotent`, once the dates have been read. When the template renders, the second run reports `Ya existe` exactly once per date, for that date's path, in order. |
| FolderCreator.RunFirstReport | docs/imagenes_diarias/generacion_carpetas.py:34-68 | A real run over a range that parses, is in order and stops before 9999-12-31, with a template that renders, ends normally. It makes one report per date after the destination's. The log opens with "La carpeta destino no existe" exactly when the destination was missing. The first folder report is about the start date's folder, `Creada` unless it was there already. |
| FolderCreator.RangeFirstReport | docs/imagenes_diarias/generacion_carpetas.py:53-68 | The same as `RunFirstReport`, once the dates have been read. |
| FolderCreator.NamesAnnounce | docs/imagenes_diarias/generacion_carpetas.py:53-68 | The first report of a run is the destination's announcement exactly when the destination did not exist, whatever the template renders. |
| FolderCreator.DefaultRun | docs/imagenes_diarias/generacion_carpetas.py:26-68 | A real run with every option at its default ends normally after 118 folder reports. The first is about `./2025-09-08_Lunes`, created unless it existed. |
| FolderCreator.FileSystem.constructor | docs/imagenes_diarias/generacion_carpetas.py:53-65 | The filesystem that `exists()` reads and `mkdir` changes starts out holding the given paths. |
| FolderCreator.FileSystem.Exists | docs/imagenes_diarias/generacion_carpetas.py:64 | `exists()` is true exactly for paths in the set. |
| FolderCreator.FileSystem.MakeDir | docs/imagenes_diarias/generacion_carpetas.py:65 | `mkdir(exist_ok=True)` adds the path to the set and changes nothing else. |
| FolderCreator.Run | docs/imagenes_diarias/generacion_carpetas.py:33-68 | `main` reports, ends and leaves the filesystem exactly as `RunSpec` says. |
| FolderCreator.RunDates | docs/imagenes_diarias/generacion_carpetas.py:53-68 | After the checks, `main` does exactly what `RunRange` says: destination first, then the dates, then an overflow at 9999-12-31. |
| FolderCreator.CreateFolders | docs/imagenes_diarias/generacion_carpetas.py:58-68 | The `for` loop gives the reports and filesystem that `Visit` describes over the names `nombre_carpeta` gives the dates, which the loop receives as a function of the date. It stops with the first template error. |
| FolderCreator.CreateNamed | docs/imagenes_diarias/generacion_carpetas.py:60-68 | One pass of the loop for a name that rendered: the folder is dealt with as `Decide` says, and the loop invariant moves past it. |
| FolderCreator.CreateFolder | docs/imagenes_diarias/generacion_carpetas.py:61-68 | One pass of the loop body. In dry-run it reports and changes nothing. Otherwise it creates the path if absent and reports `Creada`, or reports `Ya existe`. |

## Left out

- Command-line parsing (`argparse`) is left out. The options are given directly as a `Config`, whose default values are those of lines 26-30.
- `Path.resolve()` is left out. `--dest` is taken as already resolved, and `.` stands for the working directory.
- The text `main` prints is left out. The argument echo, the range and the mode (lines 47-51) and the two error messages are not part of the log. Aborts and reports keep only which message would be printed and for which path.
- The real filesystem is left out. Its I/O errors, permissions, and the difference between files and directories are not modelled. `exists()` is membership in a set of path strings, and `mkdir` adds one path.
- `mkdir(parents=True)` also creating missing parent directories is not modelled. A name containing `/` is one path string.
- FolderCreator.JoinPath: `pathlib` also drops `.` components, collapses repeated slashes, drops a trailing slash, and lets an absolute name replace the destination. The model does none of these. It only keeps the destination for an empty name and avoids doubling a slash that ends the destination.
- Decimal.ParseInt: Python's `int` also accepts surrounding whitespace, `_` between digits and non-ASCII decimal digits. The model rejects those. Only an optional sign followed by ASCII digits is accepted.
- FormatString.Format: a field with a conversion (`!r`), a format spec (`:>10`), an attribute, an index, an empty name or a numeric name such as `{0}` fails in the model with `KeyError` for the whole text between the braces. For a numeric name Python raises `IndexError` instead, since it is a positional reference and `format` is given keywords only; the crash, the log so far and the filesystem afterwards are the same. Python would apply the spec or conversion, or raise a different error. Nested `{` inside a field name is also read as part of the name.
- DateSequence.GenerateDates: the generator is lazy in Python but is materialised here before the loop. This is safe because producing the dates has no effects and the only failure, the overflow after 9999-12-31, comes after the last date. A template error depends only on the template, so it hits the first date either way.
- Week-day names are plain strings of characters. Unicode normalisation of `Miércoles` and `Sábado` is not modelled.
- The overflow and a template error end a run as `Crashed` with the log so far. The traceback Python prints is not modelled.
