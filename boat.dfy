/** One boat of the fleet: six attributes fixed at construction and the one
    mutable quantity, the expenses spent on it so far (src/Boat.java). */
module Boats {
  import opened Text

  datatype BoatType = SAILING | POWER

  function TypeName(t: BoatType): string
  {
    match t
    case SAILING => "SAILING"
    case POWER => "POWER"
  }

  /** BoatType.valueOf: the constant whose name is exactly s; any other string
      is refused (Java throws IllegalArgumentException). */
  function TypeValueOf(s: string): Option<BoatType>
  {
    if s == "SAILING" then Some(SAILING)
    else if s == "POWER" then Some(POWER)
    else None
  }

  /** valueOf accepts exactly the names of the constants. */
  lemma TypeValueOfIsExact(s: string, t: BoatType)
    ensures TypeValueOf(s) == Some(t) <==> TypeName(t) == s
  {
  }

  /** The observable state of a Boat object. */
  datatype BoatRec = BoatRec(
    kind: BoatType,
    name: string,
    year: int,
    makeModel: string,
    length: real,
    price: real,
    expenses: real)

  /** The boat before any expense: what the constructor builds. */
  function NewBoat(kind: BoatType, name: string, year: int, makeModel: string,
                   length: real, price: real): BoatRec
  {
    BoatRec(kind, name, year, makeModel, length, price, 0.0)
  }

  /** What may still be spent on b. */
  function Allowance(b: BoatRec): real
  {
    b.price - b.expenses
  }

  /** Boat.addExpense on a value: the boat afterwards and the number returned.
      An amount within the allowance is added to the expenses and the new
      total is returned; a larger amount changes nothing and the allowance is
      returned. */
  function Accrue(b: BoatRec, amount: real): (BoatRec, real)
  {
    var allowance := Allowance(b);
    if amount <= allowance then (b.(expenses := b.expenses + amount), b.expenses + amount)
    else (b, allowance)
  }

  /** Accrual touches the expenses and nothing else. */
  lemma AccrueChangesOnlyExpenses(b: BoatRec, amount: real)
    ensures Accrue(b, amount).0 == b.(expenses := Accrue(b, amount).0.expenses)
  {
  }

  /** Whatever the amount, accrual never takes the expenses above the price
      when they were not above it already. */
  lemma AccrueKeepsWithinPrice(b: BoatRec, amount: real)
    requires b.expenses <= b.price
    ensures Accrue(b, amount).0.expenses <= b.price
  {
  }

  /** Expenses stay non-negative only for non-negative amounts ... */
  lemma AccrueKeepsNonNegative(b: BoatRec, amount: real)
    requires 0.0 <= b.expenses && 0.0 <= amount
    ensures 0.0 <= Accrue(b, amount).0.expenses
  {
  }

  /** ... because the sign of the amount is never checked: a negative amount
      is accepted and lowers the expenses. */
  lemma NegativeAmountLowersExpenses(b: BoatRec, amount: real)
    requires b.expenses <= b.price && amount < 0.0
    ensures Accrue(b, amount).0.expenses == b.expenses + amount < b.expenses
    ensures Accrue(b, amount).1 == b.expenses + amount
  {
  }

  /** The returned number alone does not tell an accepted expense from a
      refused one: both answers below are 50. */
  lemma ReturnValueIsAmbiguous()
    ensures var unspent := NewBoat(POWER, "A", 2000, "M", 10.0, 100.0);
            var half := unspent.(expenses := 50.0);
            Accrue(unspent, 50.0) == (unspent.(expenses := 50.0), 50.0)
            && Accrue(half, 60.0) == (half, 50.0)
  {
  }

  /** Boat.toString:
      "%-8s %-20s %4d %-12s %3.0f' : Paid $ %8.2f : Spent $ %8.2f". */
  function Render(b: BoatRec): string
  {
    Descriptor(b) + Figures(b)
  }

  /** The text columns of the line: "%-8s %-20s %4d %-12s ". */
  function Descriptor(b: BoatRec): string
  {
    PadRight(TypeName(b.kind), 8) + " "
      + PadRight(b.name, 20) + " "
      + PadLeft(IntToString(b.year), 4) + " "
      + PadRight(b.makeModel, 12) + " "
  }

  /** The numeric columns of the line: "%3.0f' : Paid $ %8.2f : Spent $ %8.2f". */
  function Figures(b: BoatRec): string
  {
    PadLeft(FormatFixed(b.length, 0), 3) + "' : Paid $ "
      + PadLeft(FormatFixed(b.price, 2), 8) + " : Spent $ "
      + PadLeft(FormatFixed(b.expenses, 2), 8)
  }

  function Width(s: string, w: nat): nat
  {
    if |s| < w then w else |s|
  }

  /** The column where the make/model starts: after the type (8 wide), the
      name (at least 20 wide) and the year (at least 4 wide), each followed by
      one space. */
  function MakeModelColumn(b: BoatRec): nat
  {
    9 + Width(b.name, 20) + 1 + Width(IntToString(b.year), 4) + 1
  }

  /** Four fields each followed by one space, the first exactly 8 wide:
      where each field sits in the joined text. */
  lemma JoinedColumns(t: string, n: string, y: string, m: string)
    requires |t| == 8
    ensures var line := t + " " + n + " " + y + " " + m + " ";
            var c := 9 + |n| + 1 + |y| + 1;
            |line| == c + |m| + 1
            && line[..8] == t && line[8] == ' '
            && line[9..9 + |n|] == n && line[9 + |n|] == ' '
            && line[c..c + |m|] == m && line[c + |m|] == ' '
  {
    var line := t + " " + n + " " + y + " " + m + " ";
    var c := 9 + |n| + 1 + |y| + 1;
    var head := t + " " + n + " " + y + " ";
    assert |head| == c;
    assert line == head + (m + " ");
    assert line[c..c + |m|] == (m + " ")[..|m|];
    var front := t + " " + n;
    assert line == front + (" " + y + " " + m + " ");
    assert line[9..9 + |n|] == front[9..];
  }

  /** Where each text column sits in the text columns. */
  lemma DescriptorColumns(b: BoatRec)
    ensures var d := Descriptor(b);
            var c := MakeModelColumn(b);
            var w := Width(b.makeModel, 12);
            |d| == c + w + 1
            && d[..8] == PadRight(TypeName(b.kind), 8) && d[8] == ' '
            && d[9..9 + Width(b.name, 20)] == PadRight(b.name, 20)
            && d[9 + Width(b.name, 20)] == ' '
            && d[c..c + w] == PadRight(b.makeModel, 12) && d[c + w] == ' '
  {
    var t := PadRight(TypeName(b.kind), 8);
    var n := PadRight(b.name, 20);
    var y := PadLeft(IntToString(b.year), 4);
    var m := PadRight(b.makeModel, 12);
    assert |t| == 8;
    JoinedColumns(t, n, y, m);
  }

  /** The rendered line keeps the type, name and make/model whole: it starts
      with the text columns, the type padded to 8 characters at column 0, the
      name padded to at least 20 at column 9 and the make/model padded to at
      least 12 at MakeModelColumn, each followed by one space. */
  lemma RenderColumns(b: BoatRec)
    ensures var d := Descriptor(b);
            var c := MakeModelColumn(b);
            var w := Width(b.makeModel, 12);
            Render(b)[..|d|] == d && |d| == c + w + 1
            && d[..8] == PadRight(TypeName(b.kind), 8) && d[8] == ' '
            && d[9..9 + Width(b.name, 20)] == PadRight(b.name, 20)
            && d[9 + Width(b.name, 20)] == ' '
            && d[c..c + w] == PadRight(b.makeModel, 12) && d[c + w] == ' '
  {
    DescriptorColumns(b);
  }

  /** A boat object: the six attributes are constants, so only the expenses
      can ever change. */
  class Boat {
    const kind: BoatType
    const name: string
    const year: int
    const makeModel: string
    const length: real
    const price: real
    var expenses: real

    function Value(): BoatRec
      reads this
    {
      BoatRec(kind, name, year, makeModel, length, price, expenses)
    }

    constructor (kind: BoatType, name: string, year: int, makeModel: string,
                 length: real, price: real)
      ensures Value() == NewBoat(kind, name, year, makeModel, length, price)
      ensures this.expenses == 0.0
    {
      this.kind := kind;
      this.name := name;
      this.year := year;
      this.makeModel := makeModel;
      this.length := length;
      this.price := price;
      this.expenses := 0.0;
    }

    /** Accrues the amount if it fits in what is left of the price and returns
        the new total, or changes nothing and returns what is left. */
    method AddExpense(amount: real) returns (r: real)
      modifies this
      ensures amount <= old(price - expenses) ==>
                expenses == old(expenses) + amount && r == expenses
      ensures amount > old(price - expenses) ==>
                expenses == old(expenses) && r == price - expenses
      ensures (Value(), r) == Accrue(old(Value()), amount)
    {
      var remainingAllowance := price - expenses;
      if amount <= remainingAllowance {
        expenses := expenses + amount;
        return expenses;
      }
      return remainingAllowance;
    }

    function ToString(): string
      reads this
    {
      Render(Value())
    }
  }
}
