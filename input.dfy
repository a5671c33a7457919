/** The console dialogue that builds one expense, as retry rules. Each
    prompt's answers arrive as a sequence of attempts, already converted the
    way the program converts them (`float()` for the amount, `int()` for the
    category number); `None` is an answer the conversion rejects. A loop that
    runs out of attempts returns `None`: the program would instead stop with
    the `EOFError` that `input()` raises at the end of input. */
module UserInput {
  import opened Wrappers
  import opened ExpenseRecord

  /** The five category labels, icon included, in the order shown. */
  const Categories: seq<string> := [
    "\U{1F354} Food",
    "\U{1F3E0} Home",
    "\U{1F4BC} Work",
    "\U{1F389} Fun",
    "\U{2728} Misc"
  ]

  /** An amount answer is kept when it is a number and not negative. */
  predicate AmountAccepted(answer: Option<real>)
  {
    answer.Some? && answer.value >= 0.0
  }

  /** A category answer is kept when it is a number from 1 to 5. */
  predicate CategoryAccepted(answer: Option<int>)
  {
    answer.Some? && 1 <= answer.value <= |Categories|
  }

  /** The amount prompt: re-asks until an answer is kept. `used` is the
      number of answers read. */
  method ReadAmount(answers: seq<Option<real>>) returns (amount: Option<real>, used: nat)
    ensures used <= |answers|
    ensures forall j :: 0 <= j < used - 1 ==> !AmountAccepted(answers[j])
    ensures amount.Some? ==> used >= 1 && AmountAccepted(answers[used - 1])
                             && answers[used - 1] == Some(amount.value)
    ensures amount.None? <==> forall j :: 0 <= j < |answers| ==> !AmountAccepted(answers[j])
  {
    used := 0;
    while used < |answers|
      invariant used <= |answers|
      invariant forall j :: 0 <= j < used ==> !AmountAccepted(answers[j])
    {
      var answer := answers[used];
      used := used + 1;
      if AmountAccepted(answer) {
        return answer, used;
      }
    }
    return None, used;
  }

  /** The category prompt: re-asks until a number from 1 to 5 is entered and
      answers with the label at that 1-based position. */
  method ReadCategory(answers: seq<Option<int>>) returns (category: Option<string>, used: nat)
    ensures used <= |answers|
    ensures forall j :: 0 <= j < used - 1 ==> !CategoryAccepted(answers[j])
    ensures category.Some? ==> used >= 1 && CategoryAccepted(answers[used - 1])
                               && category.value == Categories[answers[used - 1].value - 1]
    ensures category.None? <==> forall j :: 0 <= j < |answers| ==> !CategoryAccepted(answers[j])
  {
    used := 0;
    while used < |answers|
      invariant used <= |answers|
      invariant forall j :: 0 <= j < used ==> !CategoryAccepted(answers[j])
    {
      var answer := answers[used];
      used := used + 1;
      if answer.Some? {
        var selectedIndex := answer.value - 1;
        if 0 <= selectedIndex < |Categories| {
          return Some(Categories[selectedIndex]), used;
        }
      }
    }
    return None, used;
  }

  /** The whole dialogue: the name as typed, then the amount prompt, then the
      category prompt. */
  method GetUserExpense(name: string, amountAnswers: seq<Option<real>>, categoryAnswers: seq<Option<int>>)
    returns (expense: Option<Expense>)
    ensures expense.Some? <==>
              (exists i :: 0 <= i < |amountAnswers| && AmountAccepted(amountAnswers[i]))
              && (exists k :: 0 <= k < |categoryAnswers| && CategoryAccepted(categoryAnswers[k]))
    ensures expense.Some? ==> expense.value.name == name
    ensures expense.Some? ==> expense.value.amount >= 0.0 && expense.value.category in Categories
    ensures expense.Some? ==>
              exists i :: 0 <= i < |amountAnswers| && AmountAccepted(amountAnswers[i])
                          && amountAnswers[i] == Some(expense.value.amount)
                          && forall j :: 0 <= j < i ==> !AmountAccepted(amountAnswers[j])
    ensures expense.Some? ==>
              exists k :: 0 <= k < |categoryAnswers| && CategoryAccepted(categoryAnswers[k])
                          && expense.value.category == Categories[categoryAnswers[k].value - 1]
                          && forall j :: 0 <= j < k ==> !CategoryAccepted(categoryAnswers[j])
  {
    var amount, usedAmounts := ReadAmount(amountAnswers);
    if amount.None? {
      return None;
    }
    var category, usedCategories := ReadCategory(categoryAnswers);
    if category.None? {
      return None;
    }
    assert AmountAccepted(amountAnswers[usedAmounts - 1]);
    assert CategoryAccepted(categoryAnswers[usedCategories - 1]);
    expense := Some(Expense(name, category.value, amount.value));
  }
}
