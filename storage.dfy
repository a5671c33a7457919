/** The expense file: one line per expense, `name,amount,category` and a
    newline, no header and no escaping. The file is modelled as the sequence
    of its lines; `show` stands for Python's `str()` of an amount and
    `toNumber` for `float()` of a text, which yields `None` where `float()`
    raises. */
module ExpenseFile {
  import opened Wrappers
  import opened Text
  import opened ExpenseRecord

  /** The three text fields of one stored line, in file order. */
  datatype Fields = Fields(name: string, amount: string, category: string)

  /** The `ValueError`s a stored line can raise while it is read back. */
  datatype LoadError =
    | WrongFieldCount(got: nat)  // the line does not unpack into three fields
    | BadAmount(text: string)    // the amount field is not a number

  /** The line appended for an expense, newline included. */
  function FormatLine(e: Expense, show: real -> string): (line: string)
  {
    e.name + "," + show(e.amount) + "," + e.category + "\n"
  }

  /** Strips the line and splits it at every comma; only three fields unpack. */
  function ParseLine(line: string): (r: Result<Fields, LoadError>)
    ensures r.Ok? <==> multiset(Strip(line))[','] == 2
    ensures r.Ok? ==> Strip(line) == r.value.name + "," + r.value.amount + "," + r.value.category
    ensures r.Ok? ==> ',' !in r.value.name && ',' !in r.value.amount && ',' !in r.value.category
    ensures r.Err? ==> r.error == WrongFieldCount(multiset(Strip(line))[','] + 1)
  {
    var fields := Split(Strip(line), ',');
    SplitCount(Strip(line), ',');
    if |fields| == 3 then
      SplitThree(Strip(line), ',');
      Ok(Fields(fields[0], fields[1], fields[2]))
    else
      Err(WrongFieldCount(|fields|))
  }

  /** One stored line read back into an expense: unpack, then `float()` the
      amount. */
  function LoadLine(line: string, toNumber: string -> Option<real>): Result<Expense, LoadError>
  {
    match ParseLine(line)
    case Err(e) => Err(e)
    case Ok(f) =>
      match toNumber(f.amount)
      case None => Err(BadAmount(f.amount))
      case Some(v) => Ok(Expense(f.name, f.category, v))
  }

  /** The outcome of reading lines whose individual results are `rs`: the
      list of all expenses when every line loads, otherwise the error of the
      first line that does not. */
  function Collect(rs: seq<Result<Expense, LoadError>>): (r: Result<seq<Expense>, LoadError>)
    ensures r.Ok? <==> forall i :: 0 <= i < |rs| ==> rs[i].Ok?
    ensures r.Ok? ==> |r.value| == |rs| && forall i :: 0 <= i < |rs| ==> rs[i] == Ok(r.value[i])
    ensures r.Err? ==> exists i :: 0 <= i < |rs| && rs[i] == Err(r.error)
                                   && forall j :: 0 <= j < i ==> rs[j].Ok?
  {
    if rs == [] then Ok([])
    else
      var front := rs[..|rs| - 1];
      assert forall i :: 0 <= i < |front| ==> front[i] == rs[i];
      match Collect(front)
      case Err(e) => Err(e)
      case Ok(es) =>
        match rs[|rs| - 1]
        case Err(e) => Err(e)
        case Ok(x) => Ok(es + [x])
  }

  /** Each line run through `parse`, in file order. */
  function ParseEach(lines: seq<string>, parse: string -> Result<Expense, LoadError>): (rs: seq<Result<Expense, LoadError>>)
    ensures |rs| == |lines|
    ensures forall i :: 0 <= i < |lines| ==> rs[i] == parse(lines[i])
  {
    if lines == [] then []
    else ParseEach(lines[..|lines| - 1], parse) + [parse(lines[|lines| - 1])]
  }

  /** The parser the program applies to every stored line. */
  function Loader(toNumber: string -> Option<real>): string -> Result<Expense, LoadError>
  {
    line => LoadLine(line, toNumber)
  }

  /** Reading the whole file. */
  function LoadAll(lines: seq<string>, toNumber: string -> Option<real>): Result<seq<Expense>, LoadError>
  {
    Collect(ParseEach(lines, Loader(toNumber)))
  }

  /** The read loop: parses line by line, appends each expense to the list,
      and gives up at the first line that raises. */
  method LoadExpenses(lines: seq<string>, parse: string -> Result<Expense, LoadError>)
    returns (r: Result<seq<Expense>, LoadError>)
    ensures r == Collect(ParseEach(lines, parse))
  {
    ghost var rs := ParseEach(lines, parse);
    var expenses: seq<Expense> := [];
    var i := 0;
    while i < |lines|
      invariant i <= |lines|
      invariant Collect(rs[..i]) == Ok(expenses)
    {
      var loaded := parse(lines[i]);
      if loaded.Err? {
        FirstErrorDecides(rs, i);
        return Err(loaded.error);
      }
      assert rs[..i + 1][..i] == rs[..i];
      expenses := expenses + [loaded.value];
      i := i + 1;
    }
    assert rs[..i] == rs;
    return Ok(expenses);
  }

  /** When every result before `i` is a success and result `i` is not, the
      first error is result `i`'s. */
  lemma FirstErrorDecides(rs: seq<Result<Expense, LoadError>>, i: nat)
    requires i < |rs|
    requires Collect(rs[..i]).Ok?
    requires rs[i].Err?
    ensures Collect(rs) == Err(rs[i].error)
  {
    var r := Collect(rs);
    assert forall j :: 0 <= j < i ==> rs[..i][j] == rs[j];
    if r.Err? {
      var k :| 0 <= k < |rs| && rs[k] == Err(r.error) && forall j :: 0 <= j < k ==> rs[j].Ok?;
      assert k == i;
    }
  }

  /** Stripping a stored line removes exactly its newline when the name
      does not start with whitespace and the category does not end with it. */
  lemma {:induction false} StripFormatLine(e: Expense, show: real -> string)
    requires e.name == [] || !IsSpace(e.name[0])
    requires e.category == [] || !IsSpace(e.category[|e.category| - 1])
    ensures Strip(FormatLine(e, show)) == e.name + "," + show(e.amount) + "," + e.category
  {
    var body := e.name + "," + show(e.amount) + "," + e.category;
    assert FormatLine(e, show) == body + "\n";
    FormatCharacters();
    assert body[0] == if e.name == [] then ',' else e.name[0];
    assert body[|body| - 1] == if e.category == [] then ',' else e.category[|e.category| - 1];
    StripNewline(body);
  }

  /** A stored line gives back the name, the amount text and the category it
      was written from, when no field holds a comma, the name does not start
      with whitespace and the category does not end with it. */
  lemma {:induction false} FieldsRoundTrip(e: Expense, show: real -> string)
    requires ',' !in e.name && ',' !in show(e.amount) && ',' !in e.category
    requires e.name == [] || !IsSpace(e.name[0])
    requires e.category == [] || !IsSpace(e.category[|e.category| - 1])
    ensures ParseLine(FormatLine(e, show)) == Ok(Fields(e.name, show(e.amount), e.category))
  {
    StripFormatLine(e, show);
    ThreeFieldsParse(FormatLine(e, show), e.name, show(e.amount), e.category);
  }

  /** A line that strips to three comma-free pieces joined by commas parses
      into those pieces. */
  lemma {:induction false} ThreeFieldsParse(line: string, n: string, t: string, c: string)
    requires Strip(line) == n + "," + t + "," + c
    requires ',' !in n && ',' !in t && ',' !in c
    ensures ParseLine(line) == Ok(Fields(n, t, c))
  {
    JoinThree(n, t, c, ',');
    SplitJoin([n, t, c], ',');
  }

  /** The same, for the whole record: what is written is read back unchanged
      when `float()` recovers the amount from its `str()` text. */
  lemma ExpenseRoundTrip(e: Expense, show: real -> string, toNumber: string -> Option<real>)
    requires ',' !in e.name && ',' !in show(e.amount) && ',' !in e.category
    requires e.name == [] || !IsSpace(e.name[0])
    requires e.category == [] || !IsSpace(e.category[|e.category| - 1])
    requires toNumber(show(e.amount)) == Some(e.amount)
    ensures LoadLine(FormatLine(e, show), toNumber) == Ok(e)
  {
    FieldsRoundTrip(e, show);
  }

  /** `s` holds no character at which reading the file in text mode ends
      a line. */
  predicate NoLineBreak(s: string)
  {
    '\n' !in s && '\r' !in s
  }

  /** A line as `readlines` returns it from a file whose text ends with a
      newline: the newline is kept at its end. */
  predicate EndsWithNewline(line: string)
  {
    line != [] && line[|line| - 1] == '\n'
  }

  /** `readlines` keeps the newline ending each line and only the last line
      can lack one, so this holds of the lines of any file whose text is
      empty or ends with a newline; appending then starts a new line. */
  predicate CompleteLines(lines: seq<string>)
  {
    forall i :: 0 <= i < |lines| ==> EndsWithNewline(lines[i])
  }

  /** Appending an expense to a readable file and reading it back gives the
      earlier expenses followed by the new one. The appended text is one
      more line exactly when the file ends with a newline and no field
      holds a line break. */
  lemma AppendThenLoad(lines: seq<string>, e: Expense, show: real -> string, toNumber: string -> Option<real>)
    requires LoadAll(lines, toNumber).Ok?
    requires CompleteLines(lines)
    requires NoLineBreak(e.name) && NoLineBreak(show(e.amount)) && NoLineBreak(e.category)
    requires ',' !in e.name && ',' !in show(e.amount) && ',' !in e.category
    requires e.name == [] || !IsSpace(e.name[0])
    requires e.category == [] || !IsSpace(e.category[|e.category| - 1])
    requires toNumber(show(e.amount)) == Some(e.amount)
    ensures LoadAll(lines + [FormatLine(e, show)], toNumber) == Ok(LoadAll(lines, toNumber).value + [e])
  {
    ExpenseRoundTrip(e, show, toNumber);
    var longer := lines + [FormatLine(e, show)];
    assert longer[..|longer| - 1] == lines;
    var rs := ParseEach(longer, Loader(toNumber));
    assert rs == ParseEach(lines, Loader(toNumber)) + [Ok(e)];
    assert rs[..|rs| - 1] == ParseEach(lines, Loader(toNumber));
  }

  /** A line holding more than two commas, wherever they are, splits into
      more than three fields and does not unpack: `strip()` removes no
      comma. */
  lemma TooManyCommasFail(line: string)
    requires multiset(line)[','] > 2
    ensures ParseLine(line).Err? && ParseLine(line).error.got > 3
  {
    FormatCharacters();
    StripKeepsCount(line, ',');
  }

  /** A written line holds the two separating commas and those of its
      fields. */
  lemma {:induction false} FormatLineCommas(e: Expense, show: real -> string)
    ensures multiset(FormatLine(e, show))[','] ==
              2 + multiset(e.name)[','] + multiset(show(e.amount))[','] + multiset(e.category)[',']
  {
    var body := e.name + "," + show(e.amount) + "," + e.category;
    assert FormatLine(e, show) == body + "\n";
    CountSplit(body, "\n", ',');
    assert multiset("\n")[','] == 0;
    SeparatorCount(e.name, show(e.amount), e.category, ',');
  }

  /** A comma inside a field is not escaped: the line then splits into more
      than three fields and cannot be read back. */
  lemma {:induction false} CommaInFieldBreaksLine(e: Expense, show: real -> string)
    requires ',' in e.name || ',' in show(e.amount) || ',' in e.category
    ensures ParseLine(FormatLine(e, show)).Err? && ParseLine(FormatLine(e, show)).error.got > 3
  {
    FormatLineCommas(e, show);
    if ',' in e.name {
      assert ',' in multiset(e.name);
    } else if ',' in show(e.amount) {
      assert ',' in multiset(show(e.amount));
    } else {
      assert ',' in multiset(e.category);
    }
    TooManyCommasFail(FormatLine(e, show));
  }
}
