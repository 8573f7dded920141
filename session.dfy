/** The menu-driven session of the fleet management program
    (src/FleetManagementSystem.java): the decisions its loop and handlers
    make, driven by input lines given in advance, and the class that carries
    them out on a Fleet object.

    Console input is the sequence of lines the Scanner still holds and console
    output is the sequence of messages printed, by kind.  An exception that
    escapes a handler ends the program; the model calls that outcome
    Crashed. */
module Session {
  import opened Text
  import opened Boats
  import opened Fleets

  /** What the program prints after a command or at start-up. */
  datatype Message =
    | ReportText(text: string)
    | BoatAdded
    | AddFailed
    | BoatRemoved
    | CannotFindToRemove(name: string)
    | CannotFindToSpend(name: string)
    | ExpenseAuthorized(spent: real)
    | ExpenseNotPermitted(left: real)
    | InvalidOption
    | CsvLoaded
    | CsvLoadFailed

  /** The printed text of each message. */
  function MessageText(m: Message): string
  {
    match m
    case ReportText(t) => t
    case BoatAdded => "Boat added successfully."
    case AddFailed => "Failed to add boat. Check your input."
    case BoatRemoved => "Boat removed successfully."
    case CannotFindToRemove(n) => "Cannot find boat " + n
    case CannotFindToSpend(n) => "Cannot find boat " + n + "."
    case ExpenseAuthorized(x) => "Expense authorized, $" + FormatFixed(x, 2) + " spent."
    case ExpenseNotPermitted(x) => "Expense not permitted, only $" + FormatFixed(x, 2) + " left to spend."
    case InvalidOption => "Invalid menu option, try again."
    case CsvLoaded => "Fleet data loaded from CSV file."
    case CsvLoadFailed => "ERROR: Failed to load fleet data from CSV file."
  }

  /** The two "cannot find" messages differ only by the final period the
      expense workflow adds. */
  lemma NotFoundTexts(n: string)
    ensures MessageText(CannotFindToSpend(n)) == MessageText(CannotFindToRemove(n)) + "."
    ensures MessageText(CannotFindToRemove(n))[..17] == "Cannot find boat "
  {
  }

  /** The observable state of a session: the boats, the input lines not yet
      read, and the messages printed so far. */
  datatype State = State(boats: seq<BoatRec>, input: seq<string>, output: seq<Message>)

  /** Either the session goes on from a new state or an exception ended the
      program. */
  datatype Outcome = Running(state: State) | Crashed

  /** t is what is left of u after reading some lines from its front. */
  predicate IsSuffix(t: seq<string>, u: seq<string>)
  {
    |t| <= |u| && t == u[|u| - |t|..]
  }

  /** Option P: prints the report of the fleet as it stands. */
  function PrintStep(s: State): State
  {
    s.(output := s.output + [ReportText(Report(s.boats))])
  }

  /** addBoat: reads one line of CSV data and hands it to addBoatFromCSV. */
  function AddBoatStep(s: State): (r: Outcome)
    ensures r.Running? ==> IsSuffix(r.state.input, s.input)
  {
    if s.input == [] then Crashed
    else
      var line := s.input[0];
      var said := if ParseRecord(line).Some? then BoatAdded else AddFailed;
      Running(State(AddRecord(s.boats, line), s.input[1..], s.output + [said]))
  }

  /** removeBoat: reads a name and hands it to Fleet.removeBoat. */
  function RemoveBoatStep(s: State): (r: Outcome)
    ensures r.Running? ==> IsSuffix(r.state.input, s.input)
  {
    if s.input == [] then Crashed
    else
      var name := s.input[0];
      var said := if Exists(s.boats, name) then BoatRemoved else CannotFindToRemove(name);
      Running(State(RemoveMatching(s.boats, name), s.input[1..], s.output + [said]))
  }

  /** manageExpense: reads a name; if no boat has it, stops there.  Otherwise
      reads an amount, which must parse, and goes on with SpendStep. */
  function ExpenseStep(s: State): (r: Outcome)
    ensures r.Running? ==> IsSuffix(r.state.input, s.input)
  {
    if s.input == [] then Crashed
    else
      var name := s.input[0];
      var rest := s.input[1..];
      assert IsSuffix(s.input[1..], s.input);
      assert |s.input| >= 2 ==> rest[1..] == s.input[2..] && IsSuffix(rest[1..], s.input) by {
        if |s.input| >= 2 {
          assert IsSuffix(s.input[2..], s.input);
        }
      }
      if !Exists(s.boats, name) then
        Running(State(s.boats, rest, s.output + [CannotFindToSpend(name)]))
      else if rest == [] then Crashed
      else
        match ParseDecimal(rest[0])
        case None => Crashed
        case Some(amount) => SpendStep(State(s.boats, rest[1..], s.output), name, amount)
  }

  /** The rest of manageExpense once the amount has been read: record it only
      when the allowance covers it, and then report the matched boat's new
      total, looked up again, if Fleet.addExpense answered true; otherwise
      report the allowance.  A false answer comes with the notice
      Fleet.addExpense prints, if any.  Reads no further input. */
  function SpendStep(s: State, name: string, amount: real): (r: Outcome)
    ensures r.Running? ==> r.state.input == s.input
  {
    var remaining := RemainingAllowance(s.boats, name);
    if remaining >= amount then
      var (after, ok) := ChargeFirstMatch(s.boats, name, amount);
      if !ok then Running(State(after, s.input, s.output + Notices(ChargeNotice(s.boats, name, amount))))
      else
        match FindFirst(after, name)
        case None => Crashed
        case Some(k) =>
          Running(State(after, s.input, s.output + [ExpenseAuthorized(after[k].expenses)]))
    else
      Running(State(s.boats, s.input, s.output + [ExpenseNotPermitted(remaining)]))
  }

  /** SpendStep once the charge is made: what the answer of Fleet.addExpense
      and the second lookup lead to. */
  lemma SpendAfterCharge(s: State, name: string, amount: real, after: seq<BoatRec>, ok: bool)
    requires RemainingAllowance(s.boats, name) >= amount
    requires (after, ok) == ChargeFirstMatch(s.boats, name, amount)
    ensures !ok ==> SpendStep(s, name, amount)
                    == Running(State(after, s.input, s.output + Notices(ChargeNotice(s.boats, name, amount))))
    ensures ok && FindFirst(after, name).None? ==> SpendStep(s, name, amount) == Crashed
    ensures ok && FindFirst(after, name).Some? ==>
              var k := FindFirst(after, name).value;
              SpendStep(s, name, amount)
              == Running(State(after, s.input, s.output + [ExpenseAuthorized(after[k].expenses)]))
  {
  }

  /** What Fleet.addExpense prints itself. */
  function Notices(notice: Option<real>): seq<Message>
  {
    match notice
    case None => []
    case Some(left) => [ExpenseNotPermitted(left)]
  }

  /** handleMenuOption: dispatch on the upper-cased option character.  A
      handler only ever reads lines from the front of the input. */
  function MenuStep(s: State, option: char): (r: Outcome)
    ensures r.Running? ==> IsSuffix(r.state.input, s.input)
  {
    match option
    case 'P' => Running(PrintStep(s))
    case 'A' => AddBoatStep(s)
    case 'R' => RemoveBoatStep(s)
    case 'E' => ExpenseStep(s)
    case 'X' => Running(s)
    case _ => Running(s.(output := s.output + [InvalidOption]))
  }

  /** The option a menu line selects: its first character, upper-cased. */
  function MenuOption(line: string): char
    requires line != ""
  {
    UpperChar(line[0])
  }

  /** The do/while loop of start: read a line, take its upper-cased first
      character, handle it, and stop after X.  A missing line or an empty one
      throws. */
  function RunLoop(s: State): (r: Outcome)
    ensures r.Running? ==> IsSuffix(r.state.input, s.input) && |r.state.input| < |s.input|
    decreases |s.input|
  {
    if s.input == [] || s.input[0] == "" then Crashed
    else
      var option := MenuOption(s.input[0]);
      var next := MenuStep(s.(input := s.input[1..]), option);
      if next.Crashed? || option == 'X' then next
      else RunLoop(next.state)
  }

  /** One turn of the loop: the option read from the first line is handled,
      and the loop ends there on X or a crash. */
  lemma RunLoopUnfolds(s: State)
    requires s.input != [] && s.input[0] != ""
    ensures var option := MenuOption(s.input[0]);
            var next := MenuStep(s.(input := s.input[1..]), option);
            RunLoop(s) == if next.Crashed? || option == 'X' then next else RunLoop(next.state)
  {
  }

  /** Where the fleet of a session comes from: the CSV file named on the
      command line (its lines, or None when it cannot be read), or else the
      saved database, whose fleet the state already holds. */
  datatype Source = Database | CsvFile(lines: Option<seq<string>>)

  /** The loading half of start. */
  function Begin(s: State, source: Source): State
  {
    match source
    case Database => s
    case CsvFile(None) => State([], s.input, s.output + [CsvLoadFailed])
    case CsvFile(Some(lines)) => State(Import([], lines), s.input, s.output + [CsvLoaded])
  }

  /** start: load, then run the menu loop. */
  function StartSession(s: State, source: Source): Outcome
  {
    RunLoop(Begin(s, source))
  }

  // ---------------------------------------------------------------------------
  // Properties of the session

  /** A line whose first character is x or X ends the loop at once, with
      nothing else changed. */
  lemma ExitLineEndsSession(s: State)
    requires s.input != [] && s.input[0] != "" && (s.input[0][0] == 'x' || s.input[0][0] == 'X')
    ensures RunLoop(s) == Running(s.(input := s.input[1..]))
  {
    var rest := s.(input := s.input[1..]);
    assert MenuOption(s.input[0]) == 'X';
    assert MenuStep(rest, 'X') == Running(rest);
  }

  /** A menu line that does not start with x or X never ends the loop: it is
      handled and the loop reads on. */
  lemma OtherLineContinues(s: State)
    requires s.input != [] && s.input[0] != "" && MenuOption(s.input[0]) != 'X'
    requires MenuStep(s.(input := s.input[1..]), MenuOption(s.input[0])).Running?
    ensures RunLoop(s) == RunLoop(MenuStep(s.(input := s.input[1..]), MenuOption(s.input[0])).state)
  {
  }

  /** No line of the input would select the exit option. */
  predicate NoExitLine(lines: seq<string>)
  {
    forall i :: 0 <= i < |lines| ==> lines[i] == "" || MenuOption(lines[i]) != 'X'
  }

  lemma NoExitLineSuffix(t: seq<string>, u: seq<string>)
    requires IsSuffix(t, u) && NoExitLine(u)
    ensures NoExitLine(t)
  {
    forall i | 0 <= i < |t|
      ensures t[i] == "" || MenuOption(t[i]) != 'X'
    {
      assert t[i] == u[|u| - |t| + i];
    }
  }

  /** Input in which no line starts with x or X never ends the session
      normally: the loop runs until a read throws. */
  lemma {:induction false} NoExitLineMeansCrash(s: State)
    requires NoExitLine(s.input)
    ensures RunLoop(s) == Crashed
    decreases |s.input|
  {
    if s.input != [] && s.input[0] != "" {
      var next := MenuStep(s.(input := s.input[1..]), MenuOption(s.input[0]));
      if next.Running? {
        assert IsSuffix(s.input[1..], s.input);
        NoExitLineSuffix(s.input[1..], s.input);
        NoExitLineSuffix(next.state.input, s.input[1..]);
        NoExitLineMeansCrash(next.state);
      }
    }
  }

  /** P, X and any unrecognised option read no input and leave the boats as
      they were; only P and the unrecognised ones print. */
  lemma ReadOnlyOptionsKeepBoats(s: State, option: char)
    requires option != 'A' && option != 'R' && option != 'E'
    ensures MenuStep(s, option).Running?
    ensures MenuStep(s, option).state.boats == s.boats
    ensures MenuStep(s, option).state.input == s.input
    ensures option == 'X' <==> MenuStep(s, option).state.output == s.output
  {
  }

  /** A appends exactly the boat that addBoatFromCSV parses, with no expenses,
      and says so; on a bad line the fleet stays as it was and the failure is
      reported. */
  lemma AddOptionFollowsParse(s: State)
    requires s.input != []
    ensures var r := MenuStep(s, 'A');
            r.Running? && r.state.input == s.input[1..]
            && match ParseRecord(s.input[0])
               case Some(b) =>
                 r.state.boats == s.boats + [b] && b.expenses == 0.0
                 && r.state.output == s.output + [BoatAdded]
               case None =>
                 r.state.boats == s.boats && r.state.output == s.output + [AddFailed]
  {
  }

  /** R leaves no boat of that name, and reports success exactly when the
      fleet shrank. */
  lemma RemoveOptionLeavesNoMatch(s: State)
    requires s.input != []
    ensures var r := MenuStep(s, 'R');
            r.Running? && !Exists(r.state.boats, s.input[0])
            && (r.state.output == s.output + [BoatRemoved] <==> |r.state.boats| < |s.boats|)
  {
    var said := MenuStep(s, 'R').state.output[|s.output|];
    assert said == BoatRemoved <==> Exists(s.boats, s.input[0]);
    RemoveMatchingShrinksIffExists(s.boats, s.input[0]);
  }

  /** For an unknown boat the expense workflow reads no amount and changes
      nothing but the output. */
  lemma UnknownBoatReadsNoAmount(s: State)
    requires s.input != [] && !Exists(s.boats, s.input[0])
    ensures ExpenseStep(s) == Running(State(s.boats, s.input[1..], s.output + [CannotFindToSpend(s.input[0])]))
  {
  }

  /** With a known boat and an amount that parses, manageExpense reads
      exactly two lines and goes on with SpendStep. */
  lemma ExpenseReadsAmount(s: State, amount: real)
    requires |s.input| >= 2 && ParseDecimal(s.input[1]) == Some(amount)
    requires Exists(s.boats, s.input[0])
    ensures ExpenseStep(s) == SpendStep(State(s.boats, s.input[2..], s.output), s.input[0], amount)
  {
    assert s.input[1..][1..] == s.input[2..];
  }

  /** When the amount exceeds the allowance, the boats stay as they were and
      the figure reported is price - expenses of the first matching boat. */
  lemma TooExpensiveChangesNothing(s: State, amount: real)
    requires |s.input| >= 2 && ParseDecimal(s.input[1]) == Some(amount)
    requires FindFirst(s.boats, s.input[0]).Some?
    requires var b := s.boats[FindFirst(s.boats, s.input[0]).value]; Allowance(b) < amount
    ensures var b := s.boats[FindFirst(s.boats, s.input[0]).value];
            ExpenseStep(s) == Running(State(s.boats, s.input[2..], s.output + [ExpenseNotPermitted(Allowance(b))]))
  {
    var t := State(s.boats, s.input[2..], s.output);
    ExistsIffFound(s.boats, s.input[0]);
    ExpenseReadsAmount(s, amount);
    assert ExpenseStep(s) == SpendStep(t, s.input[0], amount);
    TooExpensiveSpendChangesNothing(t, s.input[0], amount);
  }

  lemma TooExpensiveSpendChangesNothing(s: State, name: string, amount: real)
    requires FindFirst(s.boats, name).Some?
    requires var b := s.boats[FindFirst(s.boats, name).value]; Allowance(b) < amount
    ensures var b := s.boats[FindFirst(s.boats, name).value];
            SpendStep(s, name, amount) == Running(State(s.boats, s.input, s.output + [ExpenseNotPermitted(Allowance(b))]))
  {
  }

  /** When the allowance covers the amount, the boat-level refusal never
      happens: the first matching boat accrues the amount, every other boat
      stays as it was, the program does not fail on the second lookup, and
      the message is the new total; a negative total is reported as a refusal
      that leaves its negation to spend, though the amount was recorded. */
  lemma CoveredExpenseIsRecorded(s: State, amount: real)
    requires |s.input| >= 2 && ParseDecimal(s.input[1]) == Some(amount)
    requires FindFirst(s.boats, s.input[0]).Some?
    requires var b := s.boats[FindFirst(s.boats, s.input[0]).value]; amount <= Allowance(b)
    ensures var k := FindFirst(s.boats, s.input[0]).value;
            var total := s.boats[k].expenses + amount;
            ExpenseStep(s) == Running(State(s.boats[k := s.boats[k].(expenses := total)], s.input[2..],
                                            s.output + [if total >= 0.0 then ExpenseAuthorized(total) else ExpenseNotPermitted(-total)]))
  {
    var t := State(s.boats, s.input[2..], s.output);
    ExistsIffFound(s.boats, s.input[0]);
    ExpenseReadsAmount(s, amount);
    CoveredSpendIsRecorded(t, s.input[0], amount);
  }

  lemma CoveredSpendIsRecorded(s: State, name: string, amount: real)
    requires FindFirst(s.boats, name).Some?
    requires var b := s.boats[FindFirst(s.boats, name).value]; amount <= Allowance(b)
    ensures var k := FindFirst(s.boats, name).value;
            var total := s.boats[k].expenses + amount;
            SpendStep(s, name, amount) == Running(State(s.boats[k := s.boats[k].(expenses := total)], s.input,
                                                        s.output + [if total >= 0.0 then ExpenseAuthorized(total) else ExpenseNotPermitted(-total)]))
  {
    var k := FindFirst(s.boats, name).value;
    var total := s.boats[k].expenses + amount;
    var after := s.boats[k := s.boats[k].(expenses := total)];
    assert ChargeFirstMatch(s.boats, name, amount) == (after, total >= 0.0);
    assert ChargeNotice(s.boats, name, amount) == if total >= 0.0 then None else Some(-total);
    ChargeKeepsLookup(s.boats, name, amount);
  }

  /** Whatever the input, the expense workflow never leaves a boat it charged
      above its price: every boat either is untouched or within its price. */
  lemma ExpenseNeverExceedsPrice(s: State)
    ensures var r := ExpenseStep(s);
            r.Running? ==>
              |r.state.boats| == |s.boats|
              && forall j :: 0 <= j < |s.boats| ==>
                   r.state.boats[j] == s.boats[j] || r.state.boats[j].expenses <= r.state.boats[j].price
  {
    var r := ExpenseStep(s);
    if r.Running? && s.input != [] && Exists(s.boats, s.input[0]) {
      var name := s.input[0];
      var amount := ParseDecimal(s.input[1]).value;
      ExistsIffFound(s.boats, name);
      var k := FindFirst(s.boats, name).value;
      if RemainingAllowance(s.boats, name) >= amount {
        assert r.state.boats == ChargeFirstMatch(s.boats, name, amount).0;
        forall j | 0 <= j < |s.boats|
          ensures r.state.boats[j] == s.boats[j] || r.state.boats[j].expenses <= r.state.boats[j].price
        {
          ChargeTouchesFirstMatchOnly(s.boats, name, amount, j);
        }
      }
    }
  }

  /** Every handler keeps a fleet in which no boat has spent more than its
      price, except A with a negative price: the new boat starts at 0 spent,
      which is above such a price. */
  lemma MenuStepKeepsWithinPrice(s: State, option: char)
    requires WithinPrice(s.boats)
    requires option == 'A' && s.input != [] ==>
               forall b :: ParseRecord(s.input[0]) == Some(b) ==> b.price >= 0.0
    ensures MenuStep(s, option).Running? ==> WithinPrice(MenuStep(s, option).state.boats)
  {
    var r := MenuStep(s, option);
    if r.Running? {
      match option
      case 'R' =>
        var kept := r.state.boats;
        RemoveMatchingDropsMatches(s.boats, s.input[0]);
        forall i | 0 <= i < |kept|
          ensures kept[i].expenses <= kept[i].price
        {
          assert kept[i] in kept;
          var j :| 0 <= j < |s.boats| && s.boats[j] == kept[i];
        }
      case 'E' =>
        ExpenseNeverExceedsPrice(s);
      case _ =>
    }
  }

  /** A negative price is accepted by addBoatFromCSV and gives a boat that has
      already spent more than it cost. */
  lemma NegativePriceBreaksWithinPrice(s: State, b: BoatRec)
    requires s.input != [] && ParseRecord(s.input[0]) == Some(b) && b.price < 0.0
    ensures MenuStep(s, 'A').Running? && !WithinPrice(MenuStep(s, 'A').state.boats)
  {
    var bs := MenuStep(s, 'A').state.boats;
    assert bs[|bs| - 1] == b;
  }

  /** Loading from a CSV file starts from an empty fleet and keeps the boats
      of the lines that parse, in line order; an unreadable file leaves the
      fleet empty. */
  lemma CsvStartKeepsParsedLines(s: State, lines: seq<string>)
    ensures Begin(s, CsvFile(Some(lines))).boats == ParsedBoats(lines)
    ensures Begin(s, CsvFile(None)).boats == []
    ensures Begin(s, CsvFile(Some(lines))).input == s.input
  {
    ImportAppendsParsed([], lines);
  }

  // ---------------------------------------------------------------------------
  // The program object

  /** FleetManagementSystem: the fleet it manages, the lines the keyboard
      Scanner has not yet handed out, and what has been printed. */
  class FleetManagementSystem {
    var fleet: Fleet
    var input: seq<string>
    var output: seq<Message>

    ghost predicate Valid()
      reads this, fleet
    {
      fleet.Valid()
    }

    ghost function Current(): State
      reads this, fleet, fleet.boats
    {
      State(fleet.Contents(), input, output)
    }

    /** The outcome a handler reports through its crashed flag. */
    ghost function Result(crashed: bool): Outcome
      reads this, fleet, fleet.boats
    {
      if crashed then Crashed else Running(Current())
    }

    /** A program about to start: the fleet it would restore from the
        database, and the lines that will be typed. */
    constructor (restored: Fleet, typed: seq<string>)
      requires restored.Valid()
      ensures Valid() && fleet == restored
      ensures Current() == State(restored.Contents(), typed, [])
    {
      fleet := restored;
      input := typed;
      output := [];
    }

    /** loadFromCSV: a new fleet, filled from the lines of the file when it
        can be read. */
    method LoadFromCsv(file: Option<seq<string>>)
      modifies this
      ensures Valid() && fresh(fleet)
      ensures forall i :: 0 <= i < |fleet.boats| ==> fresh(fleet.boats[i])
      ensures Current() == Begin(old(Current()), CsvFile(file))
    {
      fleet := new Fleet();
      match file {
        case Some(lines) =>
          fleet.LoadLines(lines);
          output := output + [CsvLoaded];
        case None =>
          output := output + [CsvLoadFailed];
      }
    }

    /** addBoat. */
    method AddBoat() returns (crashed: bool)
      requires Valid()
      modifies this, fleet
      ensures Valid() && fleet == old(fleet)
      ensures forall i :: 0 <= i < |fleet.boats| ==> fleet.boats[i] in old(fleet.boats) || fresh(fleet.boats[i])
      ensures Result(crashed) == AddBoatStep(old(Current()))
    {
      if input == [] {
        return true;
      }
      ghost var s0 := Current();
      var csvData := input[0];
      input := input[1..];
      var added := fleet.AddBoatFromCsv(csvData);
      var said := if added then BoatAdded else AddFailed;
      output := output + [said];
      assert Current() == State(AddRecord(s0.boats, csvData), s0.input[1..], s0.output + [said]);
      return false;
    }

    /** removeBoat. */
    method RemoveBoat() returns (crashed: bool)
      requires Valid()
      modifies this, fleet
      ensures Valid() && fleet == old(fleet)
      ensures forall i :: 0 <= i < |fleet.boats| ==> fleet.boats[i] in old(fleet.boats)
      ensures Result(crashed) == RemoveBoatStep(old(Current()))
    {
      if input == [] {
        return true;
      }
      ghost var s0 := Current();
      var name := input[0];
      input := input[1..];
      var removed := fleet.RemoveBoat(name);
      var said := if removed then BoatRemoved else CannotFindToRemove(name);
      output := output + [said];
      assert Current() == State(RemoveMatching(s0.boats, name), s0.input[1..], s0.output + [said]);
      return false;
    }

    /** manageExpense: the name, the existence check and the amount. */
    method ManageExpense() returns (crashed: bool)
      requires Valid()
      modifies this, fleet.boats
      ensures Valid() && fleet == old(fleet) && fleet.boats == old(fleet.boats)
      ensures Result(crashed) == ExpenseStep(old(Current()))
    {
      ghost var s0 := Current();
      if input == [] {
        return true;
      }
      var name := input[0];
      input := input[1..];
      var known := fleet.BoatExists(name);
      if !known {
        output := output + [CannotFindToSpend(name)];
        UnknownBoatReadsNoAmount(s0);
        return false;
      }
      if input == [] {
        return true;
      }
      var amountText := input[0];
      match ParseDecimal(amountText) {
        case None =>
          return true;
        case Some(amount) =>
          ExpenseReadsAmount(s0, amount);
          input := input[1..];
          crashed := Spend(name, amount);
      }
    }

    /** manageExpense once the amount is read: the allowance check, the
        charge, and the second lookup for the new total. */
    method Spend(name: string, amount: real) returns (crashed: bool)
      requires Valid()
      modifies this, fleet.boats
      ensures Valid() && fleet == old(fleet) && fleet.boats == old(fleet.boats)
      ensures Result(crashed) == SpendStep(old(Current()), name, amount)
    {
      ghost var s1 := Current();
      var remainingAllowance := fleet.GetRemainingAllowance(name);
      if remainingAllowance < amount {
        var said := ExpenseNotPermitted(remainingAllowance);
        assert SpendStep(s1, name, amount) == Running(State(s1.boats, s1.input, s1.output + [said]));
        output := output + [said];
        return false;
      }
      crashed := Charge(name, amount);
    }

    /** The covered branch of manageExpense: Fleet.addExpense, then the
        second lookup when it answered true. */
    method Charge(name: string, amount: real) returns (crashed: bool)
      requires Valid() && RemainingAllowance(fleet.Contents(), name) >= amount
      modifies this, fleet.boats
      ensures Valid() && fleet == old(fleet) && fleet.boats == old(fleet.boats)
      ensures Result(crashed) == SpendStep(old(Current()), name, amount)
    {
      ghost var s1 := Current();
      var ok, notice := fleet.AddExpense(name, amount);
      ghost var after := fleet.Contents();
      SpendAfterCharge(s1, name, amount, after, ok);
      if !ok {
        output := output + Notices(notice);
        return false;
      }
      crashed := AnnounceTotal(name);
    }

    /** After a charge answered true: look the boat up again and print its
        new total; a failed lookup throws. */
    method AnnounceTotal(name: string) returns (crashed: bool)
      requires Valid()
      modifies this
      ensures Valid() && fleet == old(fleet) && fleet.boats == old(fleet.boats)
      ensures var s := old(Current());
              Result(crashed) == match FindFirst(s.boats, name)
                                 case None => Crashed
                                 case Some(k) => Running(s.(output := s.output + [ExpenseAuthorized(s.boats[k].expenses)]))
    {
      ghost var s := Current();
      var boat := fleet.FindBoatByName(name);
      if boat == null {
        return true;
      }
      ghost var k := FindFirst(s.boats, name).value;
      ValuesAt(fleet.boats, k);
      output := output + [ExpenseAuthorized(boat.expenses)];
      assert Current() == s.(output := s.output + [ExpenseAuthorized(s.boats[k].expenses)]);
      return false;
    }

    /** Option P: the report of the fleet as it stands. */
    method PrintReport()
      requires Valid()
      modifies this
      ensures Valid() && fleet == old(fleet) && fleet.boats == old(fleet.boats)
      ensures Current() == PrintStep(old(Current()))
    {
      ghost var cs := fleet.Contents();
      var report := fleet.GenerateReport();
      output := output + [ReportText(report)];
      assert fleet.Contents() == cs;
    }

    /** handleMenuOption. */
    method HandleMenuOption(option: char) returns (crashed: bool)
      requires Valid()
      modifies this, fleet, fleet.boats
      ensures Valid() && fleet == old(fleet)
      ensures forall i :: 0 <= i < |fleet.boats| ==> fleet.boats[i] in old(fleet.boats) || fresh(fleet.boats[i])
      ensures Result(crashed) == MenuStep(old(Current()), option)
    {
      ghost var s0 := Current();
      crashed := false;
      match option {
        case 'P' =>
          assert MenuStep(s0, option) == Running(PrintStep(s0));
          PrintReport();
        case 'A' =>
          assert MenuStep(s0, option) == AddBoatStep(s0);
          crashed := AddBoat();
        case 'R' =>
          assert MenuStep(s0, option) == RemoveBoatStep(s0);
          crashed := RemoveBoat();
        case 'E' =>
          assert MenuStep(s0, option) == ExpenseStep(s0);
          crashed := ManageExpense();
        case 'X' =>
        case _ =>
          output := output + [InvalidOption];
      }
    }

    /** The do/while loop of start. */
    method Run() returns (crashed: bool)
      requires Valid()
      modifies this, fleet, fleet.boats
      ensures Valid() && fleet == old(fleet)
      ensures Result(crashed) == RunLoop(old(Current()))
    {
      while true
        invariant Valid() && fleet == old(fleet)
        invariant forall i :: 0 <= i < |fleet.boats| ==> fleet.boats[i] in old(fleet.boats) || fresh(fleet.boats[i])
        invariant RunLoop(Current()) == RunLoop(old(Current()))
        decreases |input|
      {
        if input == [] || input[0] == "" {
          return true;
        }
        var stop;
        crashed, stop := Turn();
        if stop {
          return;
        }
      }
    }

    /** One pass of the do/while body: read a menu line and handle the
        option it starts with; the loop stops after X or a crash. */
    method Turn() returns (crashed: bool, stop: bool)
      requires Valid() && input != [] && input[0] != ""
      modifies this, fleet, fleet.boats
      ensures Valid() && fleet == old(fleet)
      ensures forall i :: 0 <= i < |fleet.boats| ==> fleet.boats[i] in old(fleet.boats) || fresh(fleet.boats[i])
      ensures !stop ==> |input| < old(|input|)
      ensures RunLoop(old(Current())) == if stop then Result(crashed) else RunLoop(Current())
    {
      var option := MenuOption(input[0]);
      ghost var before := Current();
      RunLoopUnfolds(before);
      input := input[1..];
      ghost var mid := Current();
      assert mid == before.(input := before.input[1..]);
      crashed := HandleMenuOption(option);
      stop := crashed || option == 'X';
    }

    /** start: load from the CSV file when one was named, else keep the
        restored fleet, then run the menu loop. */
    method Start(source: Source) returns (crashed: bool)
      requires Valid()
      modifies this, fleet, fleet.boats
      ensures Valid()
      ensures Result(crashed) == StartSession(old(Current()), source)
    {
      if source.CsvFile? {
        LoadFromCsv(source.lines);
      }
      crashed := Run();
    }
  }
}
