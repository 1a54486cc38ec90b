/**
 * The `Bank` account holder: its profile (`user_info`), its balance
 * (`bank_account['balance']`), the deposit and withdraw transactions, the
 * KYC collection `collect_user_data` and the transaction menu loop. The
 * source's `Bank(User)` inheritance is one class here, holding both records.
 */
module Banking {
  import opened Wrappers
  import opened PyText
  import opened PyNumbers
  import opened Validators
  import opened Prompt

  // ---------------- profile ----------------

  /** `user_info`. The age holds what the prompt returned: the int 0 at first, then the text typed. */
  datatype UserInfo = UserInfo(firstname: string, lastname: string, gender: string, age: Scalar,
                               phone: string, email: string)

  const EmptyUserInfo := UserInfo("", "", "", Int(0), "", "")

  datatype Field = FirstName | LastName | Email | Phone | Age | Gender

  /** The order in which `collect_user_data` prompts for the fields. */
  const CollectOrder: seq<Field> := [FirstName, LastName, Email, Phone, Age, Gender]

  /** The validation_func each prompt uses; the email check belongs to a library outside the model. */
  function FieldCheck(f: Field, emailOk: string -> bool): string -> bool {
    match f
    case FirstName => ValidateFirstname
    case LastName => ValidateLastname
    case Email => emailOk
    case Phone => ValidatePhone
    case Age => ValidateAge
    case Gender => ValidateGender
  }

  /** What is stored for an accepted answer: names and gender title-cased, the email lower-cased, the rest as typed. */
  function Store(info: UserInfo, f: Field, answer: string): UserInfo {
    match f
    case FirstName => info.(firstname := Title(answer))
    case LastName => info.(lastname := Title(answer))
    case Email => info.(email := Lower(answer))
    case Phone => info.(phone := answer)
    case Age => info.(age := Str(answer))
    case Gender => info.(gender := Title(answer))
  }

  /** The profile after prompting, the lines read, and whether every field was filled. */
  datatype Collected = Collected(info: UserInfo, used: nat, complete: bool)

  /** Shifts a result computed on `lines[n..]` back to `lines`. */
  function After(n: nat, c: Collected): Collected {
    Collected(c.info, n + c.used, c.complete)
  }

  /** Prompting for `fields` in order on `lines`; when the lines run out the fields so far stay stored. */
  function CollectFields(info: UserInfo, fields: seq<Field>, lines: seq<string>,
                         emailOk: string -> bool): (r: Collected)
    ensures r.used <= |lines|
    ensures !r.complete ==> r.used == |lines|
    decreases |fields|
  {
    if fields == [] then Collected(info, 0, true)
    else
      match FirstValid(lines, AsText, [], Some(FieldCheck(fields[0], emailOk)))
      case None => Collected(info, |lines|, false)
      case Some(found) =>
        After(found.used, CollectFields(Store(info, fields[0], found.value), fields[1..],
                                        lines[found.used..], emailOk))
  }

  /** A first or last name as stored: a capital ASCII letter followed by lower-case ones. */
  predicate ProperName(name: string) {
    name != [] && 'A' <= name[0] <= 'Z' && forall i :: 1 <= i < |name| ==> 'a' <= name[i] <= 'z'
  }

  /** What a stored value satisfies once its prompt has accepted an answer. */
  ghost predicate FieldValid(info: UserInfo, f: Field, emailOk: string -> bool) {
    match f
    case FirstName => ProperName(info.firstname)
    case LastName => ProperName(info.lastname)
    case Email => Lower(info.email) == info.email && exists answer :: emailOk(answer) && Lower(answer) == info.email
    case Phone => ValidatePhone(info.phone) && |info.phone| >= 10 && AllDigits(info.phone)
    case Age => info.age.Str? && ValidateAge(info.age.s)
    case Gender => info.gender == "Male" || info.gender == "Female"
  }

  lemma TitledNameIsProper(answer: string)
    requires LettersPlus(answer)
    ensures ProperName(Title(answer))
  {
    TitleOfWord(answer);
  }

  /** Storing an answer the field's prompt accepted leaves that field valid. */
  lemma StoreMakesFieldValid(info: UserInfo, f: Field, line: string, emailOk: string -> bool)
    requires FieldCheck(f, emailOk)(Strip(line)) && Strip(line) != []
    ensures FieldValid(Store(info, f, Strip(line)), f, emailOk)
  {
    var answer := Strip(line);
    NameAcceptsIff(line);
    StrippedHasNoFinalNewline(line);
    match f
    case FirstName => TitledNameIsProper(answer);
    case LastName => TitledNameIsProper(answer);
    case Email => LowerIdempotent(answer);
    case Phone => PhoneAcceptsIff(answer);
    case Age =>
    case Gender => StoredGenderIsOption(answer);
  }

  /** The answer a field's prompt returns, once stored, leaves that field valid. */
  lemma PromptedFieldValid(info: UserInfo, f: Field, lines: seq<string>, emailOk: string -> bool)
    requires FirstValid(lines, AsText, [], Some(FieldCheck(f, emailOk))).Some?
    ensures var found := FirstValid(lines, AsText, [], Some(FieldCheck(f, emailOk))).value;
      FieldValid(Store(info, f, found.value), f, emailOk)
  {
    var check := FieldCheck(f, emailOk);
    var found := FirstValid(lines, AsText, [], Some(check)).value;
    FirstValidSpec(lines, AsText, [], Some(check));
    var line := lines[found.used - 1];
    AcceptedValue(line, found.value, AsText, [], Some(check));
    StoreMakesFieldValid(info, f, line, emailOk);
  }

  /** Storing one field leaves the validity of every other field as it was. */
  lemma StoreKeepsOtherFields(info: UserInfo, f: Field, g: Field, answer: string, emailOk: string -> bool)
    requires f != g
    ensures FieldValid(Store(info, f, answer), g, emailOk) == FieldValid(info, g, emailOk)
  {
  }

  /** When collection completes, every prompted field holds a valid, normalised value. */
  lemma {:induction false} CollectedFieldsValid(info: UserInfo, fields: seq<Field>, lines: seq<string>,
                                               emailOk: string -> bool)
    requires forall i, j :: 0 <= i < j < |fields| ==> fields[i] != fields[j]
    ensures var r := CollectFields(info, fields, lines, emailOk);
      r.complete ==> forall f :: f in fields ==> FieldValid(r.info, f, emailOk)
    decreases |fields|
  {
    if fields != [] {
      var check := FieldCheck(fields[0], emailOk);
      match FirstValid(lines, AsText, [], Some(check))
      case None =>
      case Some(found) =>
        var stored := Store(info, fields[0], found.value);
        PromptedFieldValid(info, fields[0], lines, emailOk);
        var rest := lines[found.used..];
        CollectedFieldsValid(stored, fields[1..], rest, emailOk);
        CollectedFieldKept(stored, fields[1..], rest, emailOk, fields[0]);
    }
  }

  /** A field not prompted for again keeps its validity. */
  lemma {:induction false} CollectedFieldKept(info: UserInfo, fields: seq<Field>, lines: seq<string>,
                                             emailOk: string -> bool, g: Field)
    requires g !in fields
    ensures FieldValid(CollectFields(info, fields, lines, emailOk).info, g, emailOk) == FieldValid(info, g, emailOk)
    decreases |fields|
  {
    if fields != [] {
      match FirstValid(lines, AsText, [], Some(FieldCheck(fields[0], emailOk)))
      case None =>
      case Some(found) =>
        StoreKeepsOtherFields(info, fields[0], g, found.value, emailOk);
        CollectedFieldKept(Store(info, fields[0], found.value), fields[1..], lines[found.used..], emailOk, g);
    }
  }

  /** A completed `collect_user_data` leaves a profile every field of which is valid. */
  lemma CollectedProfileValid(info: UserInfo, lines: seq<string>, emailOk: string -> bool)
    ensures var r := CollectFields(info, CollectOrder, lines, emailOk);
      r.complete ==> forall f: Field :: FieldValid(r.info, f, emailOk)
  {
    CollectedFieldsValid(info, CollectOrder, lines, emailOk);
    var r := CollectFields(info, CollectOrder, lines, emailOk);
    forall f: Field
      ensures f in CollectOrder
    {
      match f
      case FirstName => assert CollectOrder[0] == f;
      case LastName => assert CollectOrder[1] == f;
      case Email => assert CollectOrder[2] == f;
      case Phone => assert CollectOrder[3] == f;
      case Age => assert CollectOrder[4] == f;
      case Gender => assert CollectOrder[5] == f;
    }
  }

  // ---------------- transactions ----------------

  /** Which message a transaction prints: done, amount not positive, insufficient balance, amount not a number. */
  datatype TxOutcome = Completed | NotPositive | InsufficientBalance | InvalidAmount

  datatype Tx = Tx(balance: real, outcome: TxOutcome)

  /** `deposit_cash`: adds the amount when `float(amount)` is positive, otherwise changes nothing. */
  function Deposit(balance: real, amount: Scalar): (r: Tx)
    ensures r.outcome == Completed <==> ValidateBalance(amount)
    ensures r.outcome == Completed ==> r.balance == balance + ToFloat(amount).value
    ensures r.outcome != Completed ==> r.balance == balance
    ensures r.balance >= balance
  {
    match ToFloat(amount)
    case None => Tx(balance, InvalidAmount)
    case Some(x) => if x <= 0.0 then Tx(balance, NotPositive) else Tx(balance + x, Completed)
  }

  /** `withdraw_cash`: subtracts the amount only when it is strictly less than the balance. */
  function Withdraw(balance: real, amount: Scalar): (r: Tx)
    ensures r.outcome == Completed <==> ToFloat(amount).Some? && ToFloat(amount).value < balance
    ensures r.outcome == Completed ==> r.balance == balance - ToFloat(amount).value && r.balance > 0.0
    ensures r.outcome != Completed ==> r.balance == balance
  {
    match ToFloat(amount)
    case None => Tx(balance, InvalidAmount)
    case Some(x) => if balance <= x then Tx(balance, InsufficientBalance) else Tx(balance - x, Completed)
  }

  /** Neither transaction can take a non-negative balance below zero. */
  lemma TransactionsKeepNonNegative(balance: real, amount: Scalar)
    requires balance >= 0.0
    ensures Deposit(balance, amount).balance >= 0.0
    ensures Withdraw(balance, amount).balance >= 0.0
  {
  }

  /** Withdrawing what was just deposited restores the balance, except from an empty account:
      then the withdrawal equals the whole balance and is refused. */
  lemma DepositThenWithdraw(balance: real, x: real)
    requires balance >= 0.0 && x > 0.0
    ensures Withdraw(Deposit(balance, Float(x)).balance, Float(x)) ==
      if balance > 0.0 then Tx(balance, Completed) else Tx(x, InsufficientBalance)
  {
  }

  /** The boundary cases: deposit 50 onto 100, a refused deposit of -5, withdrawing the whole
      100 (refused) and 99.99 of it (accepted, leaving 0.01), and a negative withdrawal, which
      `withdraw_cash` does not refuse and which raises the balance; 99.99 also as the typed text. */
  lemma TransactionExamples()
    ensures Deposit(100.0, Float(50.0)) == Tx(150.0, Completed)
    ensures Deposit(150.0, Float(-5.0)) == Tx(150.0, NotPositive)
    ensures Withdraw(100.0, Float(100.0)) == Tx(100.0, InsufficientBalance)
    ensures Withdraw(100.0, Float(99.99)) == Tx(0.01, Completed)
    ensures Withdraw(10.0, Float(-5.0)) == Tx(15.0, Completed)
    ensures Withdraw(100.0, Str("99.99")) == Tx(0.01, Completed)
  {
    ParseFloatExample();
  }

  // ---------------- the transaction menu ----------------

  /** `range(1, 5)`. */
  const MenuOptions: seq<int> := [1, 2, 3, 4]

  /** The menu prompt's validation_func: `validate_balance` applied to the chosen option. */
  function OptionCheck(option: int): bool {
    ValidateBalance(Int(option))
  }

  /** The amount prompts' validation_func: `validate_balance` applied to the float amount. */
  function AmountCheck(amount: real): bool {
    ValidateBalance(Float(amount))
  }

  /** One iteration of the menu loop: input ran out, option 4 was chosen after `used` lines, or
      the iteration completed after `used` lines leaving `balance`. */
  datatype Step = NeedInput | Exit(used: nat) | Continue(balance: real, used: nat)

  /** One iteration of `bank_transactions_menu`: choose an option; for 1 and 2 read an amount and
      deposit or withdraw it; 3 shows the summary; 4 leaves the loop. */
  function MenuStep(balance: real, lines: seq<string>): (st: Step)
    ensures !st.NeedInput? ==> 1 <= st.used <= |lines|
  {
    match FirstValid(lines, ParseInt, MenuOptions, Some(OptionCheck))
    case None => NeedInput
    case Some(choice) =>
      if choice.value == 1 || choice.value == 2 then
        match FirstValid(lines[choice.used..], ParseFloat, [], Some(AmountCheck))
        case None => NeedInput
        case Some(amount) =>
          var tx := if choice.value == 1 then Deposit(balance, Float(amount.value))
                    else Withdraw(balance, Float(amount.value));
          Continue(tx.balance, choice.used + amount.used)
      else if choice.value == 3 then
        Continue(balance, choice.used)
      else
        Exit(choice.used)
  }

  /** The balance at the end, the balance after each completed iteration, the lines read, and whether option 4 ended the loop. */
  datatype Session = Session(balance: real, trace: seq<real>, used: nat, exited: bool)

  /** Shifts a session run on `lines[n..]` back to `lines`, after iterations that left balances `trace`. */
  function Resume(n: nat, trace: seq<real>, s: Session): Session {
    Session(s.balance, trace + s.trace, n + s.used, s.exited)
  }

  /** `bank_transactions_menu` on `lines`: iterations until option 4, or until input runs out (not exited). */
  function MenuSession(balance: real, lines: seq<string>): (s: Session)
    ensures s.used <= |lines|
    decreases |lines|
  {
    match MenuStep(balance, lines)
    case NeedInput => Session(balance, [], |lines|, false)
    case Exit(n) => Session(balance, [], n, true)
    case Continue(b, n) => Resume(n, [b], MenuSession(b, lines[n..]))
  }

  /** What remains of a session after `used` lines: the final balance, all lines read, and whether it exited. */
  predicate SessionRest(whole: Session, used: nat, rest: Session) {
    whole.balance == rest.balance && whole.used == used + rest.used && whole.exited == rest.exited
  }

  /** A session is its first iteration followed by the session on the lines that remain. */
  lemma MenuSessionUnfold(balance: real, rest: seq<string>)
    ensures var st := MenuStep(balance, rest);
      var s := MenuSession(balance, rest);
      (st.NeedInput? ==> s.balance == balance && s.used == |rest| && !s.exited) &&
      (st.Exit? ==> s.balance == balance && s.used == st.used && s.exited) &&
      (st.Continue? ==> SessionRest(s, st.used, MenuSession(st.balance, rest[st.used..])))
  {
  }

  /** Where a session stands after one more iteration, read from line `used` with balance `b` and leaving `after`. */
  lemma SessionAfterStep(whole: Session, lines: seq<string>, used: nat, b: real, st: Step, after: real)
    requires used <= |lines|
    requires st == MenuStep(b, lines[used..])
    requires SessionRest(whole, used, MenuSession(b, lines[used..]))
    requires after == if st.Continue? then st.balance else b
    ensures st.NeedInput? ==> whole.balance == b && whole.used == |lines| && !whole.exited
    ensures st.Exit? ==> whole.balance == b && whole.used == used + st.used && whole.exited
    ensures st.Continue? ==>
      used + st.used <= |lines| && SessionRest(whole, used + st.used, MenuSession(after, lines[used + st.used..]))
  {
    var rest := lines[used..];
    MenuSessionUnfold(b, rest);
    if st.Continue? {
      assert rest[st.used..] == lines[used + st.used..];
    }
  }

  /** An iteration never takes a non-negative balance below zero. */
  lemma MenuStepKeepsNonNegative(balance: real, lines: seq<string>)
    requires balance >= 0.0
    ensures MenuStep(balance, lines).Continue? ==> MenuStep(balance, lines).balance >= 0.0
  {
    match FirstValid(lines, ParseInt, MenuOptions, Some(OptionCheck))
    case None =>
    case Some(choice) =>
      if choice.value == 1 || choice.value == 2 {
        match FirstValid(lines[choice.used..], ParseFloat, [], Some(AmountCheck))
        case None =>
        case Some(amount) =>
          TransactionsKeepNonNegative(balance, Float(amount.value));
      }
  }

  /** The menu acts only on options 1 to 4. */
  lemma MenuChoiceInRange(lines: seq<string>)
    requires FirstValid(lines, ParseInt, MenuOptions, Some(OptionCheck)).Some?
    ensures 1 <= FirstValid(lines, ParseInt, MenuOptions, Some(OptionCheck)).value.value <= 4
  {
    var choice := FirstValid(lines, ParseInt, MenuOptions, Some(OptionCheck)).value;
    FirstValidSpec(lines, ParseInt, MenuOptions, Some(OptionCheck));
    AcceptedValue(lines[choice.used - 1], choice.value, ParseInt, MenuOptions, Some(OptionCheck));
  }

  /** A number outside 1..4 (0 or 5, say) is refused by the menu prompt, which asks again. */
  lemma MenuRefusesOutOfRange(line: string, option: int)
    requires ParseInt(line) == Some(option) && !(1 <= option <= 4)
    ensures Accept(line, ParseInt, MenuOptions, Some(OptionCheck)) == None
  {
    StripIdempotent(line);
  }

  /** From a non-negative balance every iteration of the menu leaves a non-negative balance. */
  lemma {:induction false} MenuKeepsNonNegative(balance: real, lines: seq<string>)
    requires balance >= 0.0
    ensures var s := MenuSession(balance, lines);
      s.balance >= 0.0 && forall i :: 0 <= i < |s.trace| ==> s.trace[i] >= 0.0
    decreases |lines|
  {
    MenuStepKeepsNonNegative(balance, lines);
    match MenuStep(balance, lines)
    case NeedInput =>
    case Exit(_) =>
    case Continue(b, n) =>
      MenuKeepsNonNegative(b, lines[n..]);
  }

  /** The account summary (option 3) leaves the balance as it was; option 4 ends the session at once. */
  lemma SummaryAndExit(balance: real, lines: seq<string>)
    requires FirstValid(lines, ParseInt, MenuOptions, Some(OptionCheck)).Some?
    ensures var choice := FirstValid(lines, ParseInt, MenuOptions, Some(OptionCheck)).value;
      (choice.value == 3 ==> MenuStep(balance, lines) == Continue(balance, choice.used)) &&
      (choice.value == 4 ==> MenuSession(balance, lines) == Session(balance, [], choice.used, true))
  {
  }

  /** Every withdrawal chosen before any deposit on an empty account is refused: the amount prompt only lets positive amounts through. */
  lemma EmptyAccountRefusesWithdrawal(amount: real)
    requires AmountCheck(amount)
    ensures Withdraw(0.0, Float(amount)) == Tx(0.0, InsufficientBalance)
  {
  }

  /** Options 1 and 2 hand `deposit_cash` and `withdraw_cash` only an amount the prompt accepted, which is
      positive: through the menu a deposit always raises the balance and a withdrawal never does. */
  lemma MenuPassesPositiveAmount(balance: real, lines: seq<string>)
    requires FirstValid(lines, ParseInt, MenuOptions, Some(OptionCheck)).Some?
    requires FirstValid(lines, ParseInt, MenuOptions, Some(OptionCheck)).value.value in [1, 2]
    ensures var choice := FirstValid(lines, ParseInt, MenuOptions, Some(OptionCheck)).value;
      var amount := FirstValid(lines[choice.used..], ParseFloat, [], Some(AmountCheck));
      amount.Some? ==>
        amount.value.value > 0.0 && MenuStep(balance, lines).Continue? &&
        (choice.value == 1 ==> MenuStep(balance, lines).balance > balance) &&
        (choice.value == 2 ==> MenuStep(balance, lines).balance <= balance)
  {
    var choice := FirstValid(lines, ParseInt, MenuOptions, Some(OptionCheck)).value;
    var rest := lines[choice.used..];
    var amount := FirstValid(rest, ParseFloat, [], Some(AmountCheck));
    if amount.Some? {
      FirstValidSpec(rest, ParseFloat, [], Some(AmountCheck));
      AcceptedValue(rest[amount.value.used - 1], amount.value.value, ParseFloat, [], Some(AmountCheck));
    }
  }

  // ---------------- the account holder ----------------

  class Bank {
    var userInfo: UserInfo
    /** `bank_account['balance']`. */
    var balance: real

    /** `Bank()`: an empty profile and a balance of 0. */
    constructor ()
      ensures userInfo == EmptyUserInfo && balance == 0.0
    {
      userInfo := EmptyUserInfo;
      balance := 0.0;
    }

    method DepositCash(amount: Scalar) returns (outcome: TxOutcome)
      modifies this`balance
      ensures Tx(balance, outcome) == Deposit(old(balance), amount)
    {
      var parsed := ToFloat(amount);
      if parsed.None? {
        return InvalidAmount;
      }
      var x := parsed.value;
      if x <= 0.0 {
        return NotPositive;
      }
      balance := balance + x;
      return Completed;
    }

    method WithdrawCash(amount: Scalar) returns (outcome: TxOutcome)
      modifies this`balance
      ensures Tx(balance, outcome) == Withdraw(old(balance), amount)
    {
      var parsed := ToFloat(amount);
      if parsed.None? {
        return InvalidAmount;
      }
      var x := parsed.value;
      if balance <= x {
        return InsufficientBalance;
      }
      balance := balance - x;
      return Completed;
    }

    /** One prompt of `collect_user_data`, reading from `lines[from..]`. */
    method CollectField(f: Field, lines: seq<string>, from: nat, emailOk: string -> bool,
                        ghost fields: seq<Field>) returns (next: nat, ok: bool)
      requires from <= |lines| && fields != [] && fields[0] == f
      modifies this`userInfo
      ensures ok ==> from < next <= |lines|
      ensures After(from, CollectFields(old(userInfo), fields, lines[from..], emailOk)) ==
        if ok then After(next, CollectFields(userInfo, fields[1..], lines[next..], emailOk))
        else Collected(userInfo, |lines|, false)
    {
      var answer := ValidateUserData(lines[from..], AsText, [], Some(FieldCheck(f, emailOk)));
      if answer.None? {
        return from, false;
      }
      userInfo := Store(userInfo, f, answer.value.value);
      next := from + answer.value.used;
      assert lines[from..][answer.value.used..] == lines[next..];
      ok := true;
    }

    /** `collect_user_data`: first name, last name, email, phone, age, gender, each re-prompted until valid. */
    method CollectUserData(lines: seq<string>, emailOk: string -> bool) returns (used: nat, complete: bool)
      modifies this`userInfo
      ensures Collected(userInfo, used, complete) == CollectFields(old(userInfo), CollectOrder, lines, emailOk)
    {
      ghost var fields := CollectOrder;
      assert lines[0..] == lines;
      var ok;
      used, ok := CollectField(FirstName, lines, 0, emailOk, fields);
      if !ok { return |lines|, false; }
      fields := fields[1..];
      used, ok := CollectField(LastName, lines, used, emailOk, fields);
      if !ok { return |lines|, false; }
      fields := fields[1..];
      used, ok := CollectField(Email, lines, used, emailOk, fields);
      if !ok { return |lines|, false; }
      fields := fields[1..];
      used, ok := CollectField(Phone, lines, used, emailOk, fields);
      if !ok { return |lines|, false; }
      fields := fields[1..];
      used, ok := CollectField(Age, lines, used, emailOk, fields);
      if !ok { return |lines|, false; }
      fields := fields[1..];
      used, ok := CollectField(Gender, lines, used, emailOk, fields);
      if !ok { return |lines|, false; }
      complete := true;
    }

    /** One iteration of the menu loop, reading from `lines[from..]`. */
    method MenuIteration(lines: seq<string>, from: nat) returns (st: Step)
      requires from <= |lines|
      modifies this`balance
      ensures st == MenuStep(old(balance), lines[from..])
      ensures st.Continue? ==> balance == st.balance
      ensures !st.Continue? ==> balance == old(balance)
    {
      var choice := ValidateUserData(lines[from..], ParseInt, MenuOptions, Some(OptionCheck));
      if choice.None? {
        return NeedInput;
      }
      var option := choice.value.value;
      if option == 1 || option == 2 {
        var rest := lines[from..][choice.value.used..];
        var amount := ValidateUserData(rest, ParseFloat, [], Some(AmountCheck));
        if amount.None? {
          return NeedInput;
        }
        if option == 1 {
          var _ := DepositCash(Float(amount.value.value));
        } else {
          var _ := WithdrawCash(Float(amount.value.value));
        }
        return Continue(balance, choice.value.used + amount.value.used);
      } else if option == 3 {
        // display_user_data only prints
        return Continue(balance, choice.value.used);
      } else {
        return Exit(choice.value.used);
      }
    }

    /** One pass of the menu loop, read against the session `whole` that the loop runs:
        either the loop ends here, or it goes on from line `next`. */
    method MenuRound(lines: seq<string>, used: nat, ghost whole: Session) returns (next: nat, done: bool, exited: bool)
      requires used <= |lines|
      requires SessionRest(whole, used, MenuSession(balance, lines[used..]))
      modifies this`balance
      ensures done ==> balance == whole.balance && next == whole.used && exited == whole.exited
      ensures !done ==> used < next <= |lines| && SessionRest(whole, next, MenuSession(balance, lines[next..]))
    {
      ghost var b := balance;
      var st := MenuIteration(lines, used);
      SessionAfterStep(whole, lines, used, b, st, balance);
      next := if st.NeedInput? then |lines| else used + st.used;
      done, exited := !st.Continue?, st.Exit?;
    }

    /** `bank_transactions_menu`: repeats choose-option, then deposit, withdraw or summary, until option 4. */
    method BankTransactionsMenu(lines: seq<string>) returns (used: nat, exited: bool)
      modifies this`balance
      ensures var s := MenuSession(old(balance), lines);
        balance == s.balance && used == s.used && exited == s.exited
    {
      ghost var whole := MenuSession(balance, lines);
      assert lines[0..] == lines;
      used := 0;
      while true
        invariant used <= |lines|
        invariant SessionRest(whole, used, MenuSession(balance, lines[used..]))
        decreases |lines| - used
      {
        var next, done, ex := MenuRound(lines, used, whole);
        if done {
          return next, ex;
        }
        used := next;
      }
    }

    /** `display_bank_transactions`: the KYC prompts, then the menu on the remaining lines. */
    method DisplayBankTransactions(lines: seq<string>, emailOk: string -> bool) returns (used: nat, exited: bool)
      modifies this
      ensures var c := CollectFields(old(userInfo), CollectOrder, lines, emailOk);
        userInfo == c.info &&
        (c.complete ==> var s := MenuSession(old(balance), lines[c.used..]);
                        balance == s.balance && used == c.used + s.used && exited == s.exited) &&
        (!c.complete ==> balance == old(balance) && used == |lines| && !exited)
    {
      var complete;
      used, complete := CollectUserData(lines, emailOk);
      if !complete {
        return used, false;
      }
      var menuUsed;
      menuUsed, exited := BankTransactionsMenu(lines[used..]);
      used := used + menuUsed;
    }
  }

  /** The program's entry: a new `Bank`, then `display_bank_transactions`. The opening-balance
      prompt is never reached, so the menu always starts from a balance of 0. */
  method RunApp(lines: seq<string>, emailOk: string -> bool) returns (bank: Bank, used: nat, exited: bool)
    ensures var c := CollectFields(EmptyUserInfo, CollectOrder, lines, emailOk);
      bank.userInfo == c.info &&
      (c.complete ==> bank.balance == MenuSession(0.0, lines[c.used..]).balance) &&
      (!c.complete ==> bank.balance == 0.0)
    ensures bank.balance >= 0.0
  {
    bank := new Bank();
    used, exited := bank.DisplayBankTransactions(lines, emailOk);
    var c := CollectFields(EmptyUserInfo, CollectOrder, lines, emailOk);
    if c.complete {
      MenuKeepsNonNegative(0.0, lines[c.used..]);
    }
  }
}
