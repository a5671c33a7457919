/** The expense record: three fields set once when the record is built and
    never changed afterwards, and its diagnostic text form. */
module ExpenseRecord {
  import Text

  /** One logged expense. Amounts are exact reals; Python's floating-point
      rounding is not modelled. */
  datatype Expense = Expense(name: string, category: string, amount: real)

  /** The record's text form, fields in the order name, category, amount.
      `show` stands for Python's `str()` of the amount. */
  function Repr(e: Expense, show: real -> string): (s: string)
  {
    "Expense(name='" + e.name + "', category='" + e.category + "', amount=" + show(e.amount) + ")"
  }

  /** The text form cut where each field starts and ends. */
  lemma ReprParts(e: Expense, show: real -> string)
    ensures Repr(e, show) == "Expense(name='" + (e.name + ['\''] + (", category='" +
              (e.category + ['\''] + (", amount=" + (show(e.amount) + ")")))))
  {
  }

  /** When neither name nor category holds a quote, the text form determines
      the name, the category and the amount's text. */
  lemma ReprDeterminesFields(e1: Expense, e2: Expense, show: real -> string)
    requires '\'' !in e1.name && '\'' !in e2.name
    requires '\'' !in e1.category && '\'' !in e2.category
    requires Repr(e1, show) == Repr(e2, show)
    ensures e1.name == e2.name && e1.category == e2.category
    ensures show(e1.amount) == show(e2.amount)
  {
    var amount1 := show(e1.amount) + ")";
    var amount2 := show(e2.amount) + ")";
    var tail1 := ", amount=" + amount1;
    var tail2 := ", amount=" + amount2;
    var rest1 := ", category='" + (e1.category + ['\''] + tail1);
    var rest2 := ", category='" + (e2.category + ['\''] + tail2);
    ReprParts(e1, show);
    ReprParts(e2, show);
    Text.DropPrefix("Expense(name='", e1.name + ['\''] + rest1, e2.name + ['\''] + rest2);
    Text.CutAtFirst(e1.name, rest1, e2.name, rest2, '\'');
    Text.DropPrefix(", category='", e1.category + ['\''] + tail1, e2.category + ['\''] + tail2);
    Text.CutAtFirst(e1.category, tail1, e2.category, tail2, '\'');
    Text.DropPrefix(", amount=", amount1, amount2);
    assert show(e1.amount) == amount1[..|amount1| - 1];
    assert show(e2.amount) == amount2[..|amount2| - 1];
  }
}
