# Fleet ledger, modelled in Dafny

The program keeps a fleet of boats. Each boat has a type (SAILING or POWER), a
name, a year, a make/model, a length, a purchase price and the expenses spent
on it so far. A Fleet is an ordered list of boats with these operations:

- import from CSV lines, with lines that do not parse skipped;
- lookup by name, ignoring case;
- removal of every boat with a given name;
- getRemainingAllowance, which answers -1.0 for an unknown name;
- expense forwarding, where only the first boat with the name is charged;
- a printed report with totals.

The driver, FleetManagementSystem, reads menu lines from the keyboard and
dispatches on the first character of each line, upper-cased. The options are
(P)rint, (A)dd, (R)emove, (E)xpense and e(X)it.

The project has four modules:

- `Text` (`text.dfy`): the parts of the Java runtime the program relies on.
  These are ASCII case folding, `String.split(",")`, `Integer.parseInt`,
  `Double.parseDouble` restricted to plain decimal numerals, and the `%-Ns`,
  `%Ns` and `%.Nf` conversions of `String.format`.
- `Boats` (`boat.dfy`): the boat. Its value is `BoatRec`. The object is the
  class `Boat`, whose six attributes are `const` and whose expenses are the
  one `var`. `Accrue` states `addExpense` on values, and `Render` states
  `toString`.
- `Fleets` (`fleet.dfy`): each fleet operation as a function on the list of
  boat values. The class `Fleet` holds a `seq<Boat>` and performs the
  operations on the objects. Each method is proved against the function that
  specifies it through `Contents()`, the values of its boats in order.
- `Session` (`session.dfy`): the menu session as pure step functions over a
  `State`. A `State` holds the boats, the input lines not yet read and the
  messages printed so far. A step either goes on with a new state or ends in
  `Crashed`, meaning an exception escaped and ended the program. The class
  `FleetManagementSystem` carries the steps out on a `Fleet` object, and each
  of its methods is proved to produce the outcome its step function gives.

Money and lengths are exact reals.

Where the documentation comments and the code disagree, the model follows the
code:

- `Boat.addExpense` is documented to return the remaining balance
  (src/Boat.java:61-63). For an accepted expense the code returns the new
  total spent.
- `Fleet.addExpense` is documented to answer false when the expense is not
  added (src/Fleet.java:60). The code answers whether the number returned by
  `Boat.addExpense` is non-negative, so a refused expense answers true
  (`RefusedChargeAnswersTrue`). An accepted expense that leaves a negative
  total answers false and prints a refusal (`NegativeTotalAnswersFalse`,
  `CoveredExpenseIsRecorded`).

The success message is the one the code prints, "Expense authorized, $X
spent.", with " spent." at the end (src/FleetManagementSystem.java:166).

## Model

| member | source | states |
|---|---|---|
| Text.UpperAt | src/Fleet.java:33 | toUpperCase folds each character on its own, position by position |
| Text.EqualsIgnoreCaseCharwise | src/Fleet.java:100 | two names are equal ignoring case exactly when they have the same length and agree character by character once each character is upper-cased |
| Text.DropTrailingEmpty | src/Fleet.java:32 | split keeps a prefix of the raw pieces and drops only empty pieces; a line containing the separator never ends on an empty piece |
| Text.JoinPieces | src/Fleet.java:32 | the raw pieces between commas lose nothing: joined with commas they give back the line |
| Text.PiecesOfJoin | src/Fleet.java:32 | comma-free fields joined with commas cut back into exactly those fields |
| Text.SplitJoin | src/Fleet.java:32 | split(",") gives back two or more comma-free fields joined with commas, if the last field is not empty |
| Text.TrailingSeparatorAddsNoField | src/Fleet.java:32 | a trailing comma on a non-empty line adds no field |
| Text.DigitsValueOfNatToString | src/Boat.java:79 | the decimal numeral of a number reads back as that number |
| Text.ParseInt | src/Fleet.java:35 | an accepted year always fits in 32 bits |
| Text.ParseIntOfIntToString | src/Fleet.java:35 | every 32-bit year, written as a numeral, parses back to itself |
| Text.ParseIntOfDigits | src/Fleet.java:35 | a digit string with an optional sign parses to its signed value when that value fits |
| Text.ParseUnsignedDecimal | src/Fleet.java:37-38 | a numeral without a sign never parses to a negative number |
| Text.FractionValue | src/Fleet.java:37-38 | the digits after the decimal point contribute a fraction in [0, 1) |
| Text.ParseUnsignedDecimalOfDigits | src/Fleet.java:37-38 | a numeral without a point parses to the value of its digits |
| Text.UnsignedNumeral | src/Fleet.java:37-38 | a numeral that starts with a digit is read as unsigned |
| Text.ParseDecimalOfNatToString | src/Fleet.java:37-38 | every whole-number numeral parses to its value, so whole lengths and prices round-trip |
| Text.NumeralTextLacks | src/Fleet.java:32 | a written numeral is never empty and holds nothing but digits and the point, so it holds no comma |
| Text.ParseDecimalOfNumeral | src/Fleet.java:37-38 | every plain numeral, whole ("30") or with a fraction ("45000.00", "30.5"), parses to its whole part plus its fraction |
| Text.ParseNumeralWithPoint | src/Fleet.java:37-38 | a numeral with a point parses to its whole part plus its fraction |
| Text.ParseDecimalWithPoint | src/Fleet.java:37-38 | digits, a point and more digits carry no sign and parse to the value of the digits before the point plus the fraction |
| Text.ParseAtPoint | src/Fleet.java:37-38 | without a sign, digits, a point and more digits parse to the value of the whole part plus the fraction |
| Text.SplitAtPoint | src/Fleet.java:37-38 | in digits followed by a point and more digits, the first point comes right after the whole part, which is cut off intact before it, and the fraction intact after it |
| Text.IndexOfAfter | src/Fleet.java:37-38 | the first occurrence of a character is just after a prefix that holds none |
| Text.PadRightKeeps | src/Boat.java:79 | "%-Ns" never truncates: the text comes first, then only spaces |
| Text.PadLeftKeeps | src/Boat.java:79 | "%Ns" never truncates: only spaces come first, then the text |
| Text.ScaledDigits | src/Boat.java:79-80 | moving the decimal point right by d places leaves the number in front and d zeros behind |
| Text.ScaledMagnitudeOfWhole | src/Boat.java:79-80 | rounding a whole number to d places changes nothing |
| Text.FormatFixedOfWhole | src/Boat.java:79-80 | "%.Nf" prints a whole amount as its numeral followed by zeros only, e.g. 45000.00 |
| Boats.TypeValueOfIsExact | src/Fleet.java:33 | BoatType.valueOf accepts exactly the names of the two constants |
| Boats.Boat.constructor | src/Boat.java:26-34 | a new boat has the six attributes it was given and has spent nothing |
| Boats.Boat.AddExpense | src/Boat.java:65-72 | an amount within price - expenses is added and the new total is returned; a larger amount changes nothing and price - expenses is returned |
| Boats.AccrueChangesOnlyExpenses | src/Boat.java:65-72 | adding an expense changes no attribute but the expenses |
| Boats.AccrueKeepsWithinPrice | src/Boat.java:66-69 | a boat that has not spent more than its price never does, whatever the amount |
| Boats.AccrueKeepsNonNegative | src/Boat.java:66-69 | non-negative amounts keep the expenses non-negative |
| Boats.NegativeAmountLowersExpenses | src/Boat.java:67-69 | a negative amount is accepted and lowers the expenses, because its sign is never checked |
| Boats.ReturnValueIsAmbiguous | src/Boat.java:65-72 | the returned number alone cannot tell an accepted expense from a refused one |
| Boats.JoinedColumns | src/Boat.java:79 | four fields joined with single spaces keep their places in the joined text |
| Boats.DescriptorColumns | src/Boat.java:79-80 | the type, name and make/model sit whole at fixed columns of the text part of the line |
| Boats.RenderColumns | src/Boat.java:78-81 | toString starts with the text columns: the type padded to 8 characters, the name to at least 20 and the make/model to at least 12, none truncated |
| Fleets.ParseTypeIgnoresCase | src/Fleet.java:33 | the type field names a constant exactly when it equals that constant's name ignoring case |
| Fleets.UpperOfTypeName | src/Fleet.java:33 | the constant names are already upper case |
| Fleets.ParseRecord | src/Fleet.java:30-45 | a line with fewer than six fields is refused; an accepted boat has spent nothing and takes fields 2 and 4 verbatim as its name and make/model |
| Fleets.ParseCsvLine | src/Fleet.java:30-45 | a record written field by field, with its length and price as plain numerals with or without a fraction, parses back to the boat it describes, whatever the case of its type and whatever non-empty comma-free fields follow the sixth |
| Fleets.CsvLineSplits | src/Fleet.java:32 | such a record splits back into exactly the fields it was written from |
| Fleets.CsvFieldsHaveNoComma | src/Fleet.java:32-35 | the type and the year of a written record hold no comma |
| Fleets.ParseFields | src/Fleet.java:33-38 | any line that splits into a type name in any case, a 32-bit year numeral, and length and price written as plain numerals with or without a fraction parses to the boat with those fields |
| Fleets.TrailingCommaAddsNoField | src/Fleet.java:32-38 | a comma added at the end of a line never changes what it parses to, so an empty sixth field is lost |
| Fleets.FindFirst | src/Fleet.java:98-105 | a found position is a position of the list |
| Fleets.FindFirstIsEarliest | src/Fleet.java:98-105 | the boat found matches and no boat before it does; nothing is found only when no boat matches |
| Fleets.FirstMatchAt | src/Fleet.java:99-104 | a scan that first meets a match at i, or meets none, has found the earliest match |
| Fleets.ExistsIffFound | src/Fleet.java:112-119 | boatExists holds exactly when findBoatByName finds a boat |
| Fleets.SameNamesSameLookup | src/Fleet.java:98-105 | lookup depends only on the names, position by position |
| Fleets.RemoveMatching | src/Fleet.java:52-54 | removal never makes the list longer |
| Fleets.RemoveMatchingDropsMatches | src/Fleet.java:53 | every survivor was in the list and does not match the name |
| Fleets.RemoveMatchingKeepsOthers | src/Fleet.java:53 | every boat that does not match survives |
| Fleets.RemoveMatchingAppend | src/Fleet.java:53 | removal works piecewise, so survivors keep their order |
| Fleets.RemoveMatchingStep | src/Fleet.java:53 | one more boat of input keeps that boat exactly when it does not match |
| Fleets.RemoveMatchingShrinksIffExists | src/Fleet.java:52-54 | removeBoat answers true exactly when a boat of that name existed, and afterwards none exists |
| Fleets.SentinelMeansMissing | src/Fleet.java:126-132 | while no boat has spent more than its price, the answer is negative exactly when the boat is missing, and then it is -1.0 |
| Fleets.NoticeExactlyOnFoundFalse | src/Fleet.java:62-73 | addExpense prints its refusal exactly when the boat exists and the answer is false, and the figure printed is positive |
| Fleets.ChargeMissingBoat | src/Fleet.java:62-73 | for an unknown boat nothing changes and the answer is false |
| Fleets.ChargeTouchesFirstMatchOnly | src/Fleet.java:63-65 | only the first boat with the name can change, and only as Boat.addExpense changes it |
| Fleets.ChargeKeepsLookup | src/FleetManagementSystem.java:163-165 | after a charge, the second lookup finds the boat that was charged |
| Fleets.RefusedChargeAnswersTrue | src/Fleet.java:65-67 | an expense the boat refuses still answers true, with nothing changed, when the boat's allowance is not negative |
| Fleets.NegativeTotalAnswersFalse | src/Fleet.java:65-69 | an accepted expense that leaves a negative total is recorded, yet answers false |
| Fleets.ChargeMovesExpenseTotal | src/Fleet.java:62-73 | a charge moves the reported expense total by exactly the amount it recorded and never moves the price total |
| Fleets.TotalsSnoc | src/Fleet.java:85-86 | each further boat adds its price and its expenses to the totals |
| Fleets.LinesSnoc | src/Fleet.java:84 | each further line is appended with its newline |
| Fleets.ReportStep | src/Fleet.java:83-84 | after i + 1 boats the report is the report after i boats plus the next boat's line |
| Fleets.LinesStep | src/Fleet.java:84 | one more line of the list adds that line and a newline |
| Fleets.TotalsStep | src/Fleet.java:85-86 | one more boat of the list adds its figures to both totals |
| Fleets.ReportAdvance | src/Fleet.java:83-87 | one pass of the report loop keeps the text and both totals in step with the first boats |
| Fleets.ReportComplete | src/Fleet.java:89-90 | after every boat, the totals line completes the report |
| Fleets.TotalsAfterUpdate | src/Fleet.java:85-86 | changing one boat's expenses moves the expense total by the difference |
| Fleets.ImportStep | src/Fleet.java:19-21 | reading from line i on is adding line i, then reading the rest |
| Fleets.ImportAppendsParsed | src/Fleet.java:17-23 | loading appends the boats of the lines that parse, in line order, after the existing ones |
| Fleets.ImportConcat | src/Fleet.java:17-23 | loading two files in turn is loading their concatenation |
| Fleets.Survivors | src/Fleet.java:53 | the filtering pass of removeIf keeps exactly the boat objects that do not match, in order, each once |
| Fleets.Fleet.constructor | src/Fleet.java:10 | a new fleet is empty |
| Fleets.Fleet.AddBoatFromCsv | src/Fleet.java:30-45 | a parsed line appends exactly its boat and answers true; any other line changes nothing and answers false |
| Fleets.Fleet.LoadLines | src/Fleet.java:17-23 | the fleet afterwards is the old fleet with every line added in turn |
| Fleets.Fleet.RemoveBoat | src/Fleet.java:52-54 | every boat of that name is dropped, the survivors keep their order, and the answer is whether any boat had the name |
| Fleets.Fleet.FindBoatByName | src/Fleet.java:98-105 | returns the object of the earliest boat with the name, or null when there is none |
| Fleets.Fleet.BoatExists | src/Fleet.java:112-119 | answers whether some boat has the name, which is whether lookup finds one |
| Fleets.Fleet.GetRemainingAllowance | src/Fleet.java:126-132 | price - expenses of the first boat with the name, or -1.0 |
| Fleets.Fleet.AddExpense | src/Fleet.java:62-73 | charges only the first boat with the name; answers whether Boat.addExpense returned a non-negative number; returns the figure of the refusal it prints |
| Fleets.Fleet.GenerateReport | src/Fleet.java:79-91 | the header, one line per boat in list order, then the price and expense totals |
| Session.NotFoundTexts | src/FleetManagementSystem.java:138-150 | the two "Cannot find boat" messages differ only by the period the expense workflow adds |
| Session.AddBoatStep | src/FleetManagementSystem.java:119-127 | adding reads only lines from the front of the input |
| Session.RemoveBoatStep | src/FleetManagementSystem.java:132-140 | removing reads only lines from the front of the input |
| Session.ExpenseStep | src/FleetManagementSystem.java:145-157 | the expense workflow reads only lines from the front of the input |
| Session.SpendStep | src/FleetManagementSystem.java:159-171 | once the amount is read, no further input is read |
| Session.SpendAfterCharge | src/FleetManagementSystem.java:161-167 | after the charge, the answer decides the outcome: false prints only Fleet's own refusal; true prints the new total of the boat found again, or throws if none is found |
| Session.MenuStep | src/FleetManagementSystem.java:95-114 | every option reads only lines from the front of the input |
| Session.RunLoop | src/FleetManagementSystem.java:34-39 | each turn of the menu loop uses up at least one input line |
| Session.RunLoopUnfolds | src/FleetManagementSystem.java:35-39 | one turn handles the option read from the first line, and the loop ends there on X or a crash |
| Session.ExitLineEndsSession | src/FleetManagementSystem.java:37-39 | a line starting with x or X ends the session with nothing else changed |
| Session.OtherLineContinues | src/FleetManagementSystem.java:35-39 | a line starting with any other character is handled and the loop reads on |
| Session.NoExitLineMeansCrash | src/FleetManagementSystem.java:35-39 | input with no exit line never ends normally: a read eventually throws |
| Session.ReadOnlyOptionsKeepBoats | src/FleetManagementSystem.java:96-113 | P, X and unknown options read nothing and keep the boats; only X prints nothing |
| Session.AddOptionFollowsParse | src/FleetManagementSystem.java:119-127 | A appends exactly the parsed boat and reports success, or keeps the fleet and reports failure |
| Session.RemoveOptionLeavesNoMatch | src/FleetManagementSystem.java:132-140 | R leaves no boat of that name, and reports success exactly when the fleet shrank |
| Session.UnknownBoatReadsNoAmount | src/FleetManagementSystem.java:149-152 | for an unknown boat no amount is read and only the message changes |
| Session.ExpenseReadsAmount | src/FleetManagementSystem.java:154-156 | for a known boat exactly two lines are read, the name and the amount |
| Session.TooExpensiveChangesNothing | src/FleetManagementSystem.java:168-171 | an amount above the allowance changes no boat and reports the allowance of the first boat with the name |
| Session.TooExpensiveSpendChangesNothing | src/FleetManagementSystem.java:168-171 | the same, from the point where the amount has been read |
| Session.CoveredExpenseIsRecorded | src/FleetManagementSystem.java:159-167 | a covered amount is added to the first boat with the name only; the new total is reported, or a negative total is reported as a refusal |
| Session.CoveredSpendIsRecorded | src/FleetManagementSystem.java:161-167 | the same, from the point where the amount has been read |
| Session.ExpenseNeverExceedsPrice | src/FleetManagementSystem.java:145-172 | every boat the expense workflow touches ends within its price |
| Session.MenuStepKeepsWithinPrice | src/FleetManagementSystem.java:95-114 | every option keeps every boat within its price, unless A adds a boat with a negative price |
| Session.NegativePriceBreaksWithinPrice | src/FleetManagementSystem.java:119-127 | a negative price is accepted and gives a boat that has already spent more than it cost |
| Session.CsvStartKeepsParsedLines | src/FleetManagementSystem.java:49-57 | loading from CSV starts from an empty fleet and keeps the boats of the lines that parse; an unreadable file leaves the fleet empty |
| Session.FleetManagementSystem.constructor | src/FleetManagementSystem.java:62-65 | the session starts with the restored fleet, all input unread and nothing printed |
| Session.FleetManagementSystem.LoadFromCsv | src/FleetManagementSystem.java:49-57 | a fresh fleet filled from the file's lines, then the load message or the error message |
| Session.FleetManagementSystem.AddBoat | src/FleetManagementSystem.java:119-127 | carries out AddBoatStep on the fleet object |
| Session.FleetManagementSystem.RemoveBoat | src/FleetManagementSystem.java:132-140 | carries out RemoveBoatStep on the fleet object |
| Session.FleetManagementSystem.ManageExpense | src/FleetManagementSystem.java:145-157 | carries out ExpenseStep on the fleet object |
| Session.FleetManagementSystem.Spend | src/FleetManagementSystem.java:159-171 | carries out SpendStep on the fleet object |
| Session.FleetManagementSystem.Charge | src/FleetManagementSystem.java:161-167 | the covered branch: the charge, Fleet's own refusal, and the second lookup, as SpendStep says |
| Session.FleetManagementSystem.AnnounceTotal | src/FleetManagementSystem.java:165-166 | prints the expenses of the earliest boat with the name, or throws when there is none |
| Session.FleetManagementSystem.PrintReport | src/FleetManagementSystem.java:97-99 | prints the report of the fleet as it stands and changes no boat |
| Session.FleetManagementSystem.HandleMenuOption | src/FleetManagementSystem.java:95-114 | carries out MenuStep for the option |
| Session.FleetManagementSystem.Turn | src/FleetManagementSystem.java:35-39 | one pass of the loop body leaves the rest of the session's outcome unchanged, and stops on X or a crash |
| Session.FleetManagementSystem.Run | src/FleetManagementSystem.java:34-39 | the menu loop ends with the outcome RunLoop gives |
| Session.FleetManagementSystem.Start | src/FleetManagementSystem.java:27-43 | loads from CSV when a file was named, otherwise keeps the restored fleet, then runs the menu loop |

## Left out

- Saving to and loading from the database file (src/FleetManagementSystem.java:62-82) is serialisation and file I/O. The fleet restored from the database is a parameter of the session constructor. The "loaded from database", "Starting fresh" and "saved" messages are not modelled.
- `main` and its arguments are not modelled. `Start` takes the source of the fleet instead: the lines of the named CSV file, or `None` when that file cannot be read.
- Console prompts, `printMenu` and the final "Exiting the Fleet Management System" line are not modelled. Prompts are printed without a newline before each read and carry no decision. The model's output holds only the messages that follow a decision.
- Text.ParseDecimal: accepts only an optional sign followed by digits with at most one decimal point. `Double.parseDouble` also trims surrounding white space and accepts exponents, hexadecimal forms, "NaN", "Infinity" and type suffixes. The model refuses those lines.
- Text.ParseInt: ASCII digits only. `Integer.parseInt` also accepts other Unicode decimal digits.
- Text.Upper: folds ASCII letters only. `toUpperCase`, `equalsIgnoreCase` and `Character.toUpperCase` follow Unicode case mapping. The type field's `toUpperCase()` (src/Fleet.java:33) also follows the default locale: under a Turkish locale "sailing" becomes "SAİLİNG", `valueOf` throws and the line is refused, while the model accepts it.
- Fleets.ParseCsvLine: the round trip covers length and price written as plain numerals, whole or with digits after the point, and extra fields that are non-empty. Signs, leading zeros in the whole part, the forms ".5" and "30.", exponents and empty trailing fields are parsed by the model as `Text.ParseDecimal` and `Text.Split` say, but no round-trip lemma covers them.
- Session.ExpenseStep: reads the amount as one whole input line. `keyboard.nextDouble()` reads one locale-dependent token, may skip blank lines, and leaves the rest of its line for the `nextLine()` that follows.
- Doubles are modelled as exact reals. No rounding of IEEE 754 arithmetic is modelled, and so neither are infinities, NaN or the loss of precision in the totals.
- Text.FormatFixed: always prints '.' as the decimal separator. The `%.2f`, `%8.2f` and `%3.0f` conversions (src/Boat.java:79-80, src/Fleet.java:89) print the default locale's separator, which is ',' in many locales.
- Text.FormatFixed: rounds the exact real half up. Java rounds the decimal expansion of the double half up, so the two can differ where a double is not exactly the decimal it was read from.
- Names and make/models are taken verbatim. Java strings are UTF-16 and the model's are sequences of characters. No length limit of Java arrays or strings is modelled.
- Text.IntToString: the year is formatted with `%4d` in the default locale. Locales whose digits or minus sign are not ASCII are not modelled.
