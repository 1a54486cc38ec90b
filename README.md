# Banking console app: a Dafny model

This project models `banking_app_learn.py`. It is a single-user console program.

- It collects a KYC profile: first name, last name, email, phone, age and gender.
- It then runs a transaction menu: deposit, withdraw, account summary and exit.
- Each answer goes through `validate_user_data`, a retry loop. The loop strips the line, skips it when it is empty, converts it, checks it against an allowed range and a validator, and asks again until one line passes.

The model has these modules:

- `Wrappers` holds `Option`.
- `PyText` covers the parts of Python's `str` the program relies on: `strip()`, `lower()`, `title()` and the regex character classes. It is restricted to ASCII.
- `PyNumbers` covers `int()` and `float()` on text, and `float()` on the dynamically typed values (`Scalar`: text, int or float) that reach `validate_balance`.
- `Validators` holds the field validators as pure predicates, with lemmas that give each one's acceptance set: for gender on all text; for names and phone on text without a final newline (as every stripped line is); for age on whole numbers written out; and for amounts on whole numbers and on decimals written with a point.
- `Prompt` holds `validate_user_data`. It is written two ways:
  - the specification function `FirstValid`, over the sequence of lines the user types;
  - the loop `ValidateUserData`, which is proved equal to it.
- `Banking` holds the profile and the two transactions, `Deposit` and `Withdraw`. It defines one menu iteration (`MenuStep`) and a whole menu session (`MenuSession`). It also holds the `Bank` class:
  - its fields are `userInfo` and `balance`;
  - its methods update those fields in place and are proved against the functions above;
  - `RunApp` is the program's entry point.

Console input is a `seq<string>` of the lines typed. A prompt that runs out of lines returns `None`: the program would still be waiting for input at that point.

Some of the code's behaviour differs from what its messages and names suggest. The model follows the code:

- **Phone.** The error message at banking_app_learn.py:118 says "Must be 10 digits starting with 0". The regex `^0+\d{9}$` accepts any number of leading zeros, though, so `"00123456789"` (11 characters) passes. Python's `$` also matches before a final `"\n"`; this never matters for stripped input (`StrippedHasNoFinalNewline`).
- **Opening balance.** The program never asks for it. `get_account_balance` is defined but never called, so the menu always starts from the balance of 0 set in `Bank.__init__` (`RunApp`).
- **Withdrawing exactly the balance** is refused (`balance <= amount`). So from an empty account, every withdrawal the menu lets through is refused (`EmptyAccountRefusesWithdrawal`).
- **Withdrawing a negative amount.** `withdraw_cash` on its own does not refuse it, and the balance goes up. The menu never passes one, because the amount prompt requires a positive number (`MenuPassesPositiveAmount`).
- **Age** is stored as the text the prompt returned (`data_type=str`), not as an int.

## Model

| member | source | states |
|---|---|---|
| PyText.StripSpec | banking_app_learn.py:44 | `strip()` leaves no whitespace at either end and removes only whitespace around a slice of the line. The result is empty exactly for a blank line. |
| PyText.StripIdempotent | banking_app_learn.py:44 | Stripping twice is the same as stripping once. |
| PyText.StripKeepsContent | banking_app_learn.py:44 | Every non-whitespace character of the line survives the strip. |
| PyText.LowerIdempotent | banking_app_learn.py:157 | A lower-cased string has no capital letters and is unchanged by lowering it again. |
| PyText.TitleFrom | banking_app_learn.py:88 | `title()` keeps the length, changes only the case of each character and keeps which characters are letters. |
| PyText.TitleAfterLetter | banking_app_learn.py:145 | After a letter, `title()` lower-cases a whole run of letters. |
| PyText.TitleOfWord | banking_app_learn.py:145 | An all-letter word comes out of `title()` as a capital letter followed by lower case. |
| PyNumbers.ParseIntRoundTrip | banking_app_learn.py:105 | `int(str(n)) == n` for every integer. |
| PyNumbers.ParseFloatOfIntString | banking_app_learn.py:203 | `float(str(n)) == n` for every integer. |
| PyNumbers.UnsignedDecimalOfParts | banking_app_learn.py:203 | Digits, a point and digits (at least one digit in all) read as the whole part plus the fraction digits divided by 10 to the number of fraction digits. |
| PyNumbers.DecimalValuePositive | banking_app_learn.py:203 | Such a decimal is positive if and only if one of its digits is non-zero. |
| PyNumbers.ParseFloatOfDecimal | banking_app_learn.py:203 | `float("w.f")` is that decimal value; the point may lead or trail. |
| PyNumbers.ParseFloatExample | banking_app_learn.py:203 | `float("99.99") == 99.99`. |
| PyNumbers.ParseIntRejectsLetters | banking_app_learn.py:105 | Text containing a letter makes `int()` raise ValueError. |
| PyNumbers.ParseFloatRejectsLetters | banking_app_learn.py:203 | Text containing a letter makes the modelled `float()` fail. The modelled grammar is an optional sign, digits and at most one point. |
| Validators.StrippedHasNoFinalNewline | banking_app_learn.py:70 | A stripped line never ends in `"\n"`, so the `$` quirk of `re.match` never arises for prompted names. |
| Validators.NameAcceptsIff | banking_app_learn.py:67-81 | On a stripped line, the first- and last-name validators accept exactly the non-empty all-ASCII-letter strings. |
| Validators.NameRejectsNonLetter | banking_app_learn.py:67-81 | A name with a digit, space or symbol anywhere is rejected, and so is one with a newline anywhere except at the very end. |
| Validators.NameRejectsEmpty | banking_app_learn.py:70 | The empty name is rejected. |
| Validators.GenderAcceptedIsMaleOrFemale | banking_app_learn.py:84-96 | Every accepted gender is "male" or "female" up to case. |
| Validators.GenderAcceptsAnyCase | banking_app_learn.py:84-96 | Every mix of cases of "male" or "female" is accepted. |
| Validators.GenderAcceptsIff | banking_app_learn.py:84-99 | The gender validator accepts a string if and only if it lower-cases to "male" or "female". |
| Validators.StoredGenderIsOption | banking_app_learn.py:172-175 | An accepted gender, title-cased for storage, is exactly "Male" or "Female". |
| Validators.AgeAcceptsIff | banking_app_learn.py:103-112 | For a whole number written out, the age validator accepts if and only if 1 <= age <= 100. |
| Validators.AgeRejectsLetters | banking_app_learn.py:110-112 | Text containing a letter is rejected as an age; the ValueError is caught. |
| Validators.PhoneAcceptsIff | banking_app_learn.py:115-120 | Without a final newline, a phone passes if and only if it has at least 10 characters, all digits, and all but the last nine are '0'. |
| Validators.PhoneShape | banking_app_learn.py:117 | Every accepted phone starts with '0' and has at least 10 characters. |
| Validators.PhoneExamples | banking_app_learn.py:117 | "0771234567" is accepted. "1771234567" and "077123456" are rejected. "00123456789" is accepted. |
| Validators.BalanceAcceptsIff | banking_app_learn.py:200-210 | For a whole number written out, `validate_balance` accepts if and only if it is positive. |
| Validators.BalanceAcceptsDecimal | banking_app_learn.py:200-210 | For an amount written with a point, `validate_balance` accepts if and only if some digit is non-zero. |
| Validators.BalanceRejectsLetters | banking_app_learn.py:208-210 | Text containing a letter is rejected as an amount by the modelled `float()` (sign, digits, one point). |
| Prompt.FirstValid | banking_app_learn.py:42-60 | When the loop returns, it has read at least one line and no more than are available. |
| Prompt.FirstValidSpec | banking_app_learn.py:42-60 | The loop returns the value of the first accepted line, and every earlier line was rejected. It returns nothing only when every line is rejected. |
| Prompt.FirstValidIsFirstAccepted | banking_app_learn.py:42-60 | Conversely, the first accepted line decides the result and the number of lines read. |
| Prompt.RejectedLinesDiscarded | banking_app_learn.py:46-57 | Rejected lines in front change nothing but the count of lines read. |
| Prompt.BlankLineRejected | banking_app_learn.py:46-48 | An empty or whitespace-only line is never accepted. |
| Prompt.AcceptedValue | banking_app_learn.py:49-60 | An accepted value is the conversion of the non-empty stripped line. It lies in `valid_range` when that is non-empty, and it satisfies `validation_func` when one is given. |
| Prompt.EmptyRangeAcceptsAnyConverted | banking_app_learn.py:52 | An empty `valid_range` is falsy and skips the membership test. |
| Prompt.TextPromptReturnsStripped | banking_app_learn.py:44-60 | A `str` prompt returns the stripped line itself, never empty. |
| Prompt.ValidateUserData | banking_app_learn.py:31-63 | The retry loop returns exactly the first line that passes every check, with the lines it read, or nothing when input runs out. |
| Banking.TitledNameIsProper | banking_app_learn.py:142-151 | A stored name is a capital ASCII letter followed by lower-case letters. |
| Banking.CollectFields | banking_app_learn.py:138-175 | Collection reads at most the lines available. When it does not complete, it has read all of them. |
| Banking.StoreMakesFieldValid | banking_app_learn.py:142-175 | Storing an accepted answer leaves the field valid: a proper name, a lower-case email the email check accepted, a phone of 10 or more digits, an age in 1..100, or the gender "Male"/"Female". |
| Banking.PromptedFieldValid | banking_app_learn.py:142-175 | The answer a field's prompt returns leaves that field valid once stored. |
| Banking.StoreKeepsOtherFields | banking_app_learn.py:142-175 | Storing one field leaves the validity of every other field unchanged. |
| Banking.CollectedFieldsValid | banking_app_learn.py:138-175 | When collection over distinct fields completes, every prompted field is valid. |
| Banking.CollectedFieldKept | banking_app_learn.py:138-175 | A field that is not prompted for keeps its validity. |
| Banking.CollectedProfileValid | banking_app_learn.py:138-175 | After a completed `collect_user_data`, all six fields of the profile are valid. |
| Banking.Deposit | banking_app_learn.py:222-232 | A deposit completes if and only if `validate_balance` accepts the amount. It then adds `float(amount)`; otherwise the balance is unchanged. The balance never decreases. |
| Banking.Withdraw | banking_app_learn.py:234-247 | A withdrawal completes if and only if `float(amount)` succeeds and is strictly below the balance. It then subtracts it, leaving a positive balance; otherwise the balance is unchanged. |
| Banking.TransactionsKeepNonNegative | banking_app_learn.py:222-247 | Neither transaction takes a non-negative balance below zero. |
| Banking.DepositThenWithdraw | banking_app_learn.py:222-247 | Withdrawing what was just deposited restores a positive balance. From an empty account it is refused. |
| Banking.TransactionExamples | banking_app_learn.py:222-247 | 100 + 50 gives 150. A deposit of -5 is refused. Withdrawing 100 of 100 is refused. 99.99 of 100 leaves 0.01. A withdrawal of -5 adds 5. The typed text "99.99" withdrawn from 100 also leaves 0.01. |
| Banking.MenuStep | banking_app_learn.py:250-281 | An iteration that does not wait for input reads at least one line and no more than are available. |
| Banking.MenuSession | banking_app_learn.py:250-281 | A session never reads more lines than there are. |
| Banking.MenuSessionUnfold | banking_app_learn.py:251-281 | A session is its first iteration followed by the session on the remaining lines, with the balance that iteration left. |
| Banking.SessionAfterStep | banking_app_learn.py:251-281 | After one more iteration, the session either ends here (waiting for input, or exited with option 4) or continues from the following line with the new balance. |
| Banking.MenuStepKeepsNonNegative | banking_app_learn.py:260-275 | An iteration never takes a non-negative balance below zero. |
| Banking.MenuKeepsNonNegative | banking_app_learn.py:250-281 | From a non-negative balance, the final balance and the balance after every iteration are non-negative. |
| Banking.MenuChoiceInRange | banking_app_learn.py:253-258 | The menu only ever acts on an option from 1 to 4. |
| Banking.MenuRefusesOutOfRange | banking_app_learn.py:256 | A number outside 1..4 is refused and the prompt asks again. |
| Banking.SummaryAndExit | banking_app_learn.py:276-281 | The summary (option 3) leaves the balance as it was. Option 4 ends the session at once. |
| Banking.MenuPassesPositiveAmount | banking_app_learn.py:260-275 | The amount passed on by options 1 and 2 is positive, so a deposit through the menu raises the balance and a withdrawal never does. |
| Banking.EmptyAccountRefusesWithdrawal | banking_app_learn.py:238-240 | From a balance of 0, every amount the withdraw prompt accepts is refused for insufficient balance. |
| Banking.Bank.constructor | banking_app_learn.py:192-196 | A new Bank has an empty profile (age 0) and a balance of 0. |
| Banking.Bank.DepositCash | banking_app_learn.py:222-232 | Updates `balance` and reports the outcome exactly as `Deposit` specifies. |
| Banking.Bank.WithdrawCash | banking_app_learn.py:234-247 | Updates `balance` and reports the outcome exactly as `Withdraw` specifies. |
| Banking.Bank.CollectField | banking_app_learn.py:142-175 | One prompt stores its field and hands the remaining fields and lines on, as `CollectFields` specifies. |
| Banking.Bank.CollectUserData | banking_app_learn.py:138-175 | Leaves `userInfo` exactly as `CollectFields` specifies, and reports the lines read and whether all six fields were filled. |
| Banking.Bank.MenuIteration | banking_app_learn.py:251-281 | One pass of the loop body is `MenuStep`, and `balance` holds the balance it leaves. |
| Banking.Bank.MenuRound | banking_app_learn.py:251-281 | One pass either finishes the session (final balance, lines read, exit) or leaves the rest of the session to run from the following line. |
| Banking.Bank.BankTransactionsMenu | banking_app_learn.py:250-281 | The loop ends with the balance, the lines read and the exit flag of `MenuSession`. |
| Banking.Bank.DisplayBankTransactions | banking_app_learn.py:284-287 | The profile is what collection produced. The menu runs on the remaining lines only when collection completed. |
| Banking.RunApp | banking_app_learn.py:292-297 | A fresh bank holds the collected profile. Its balance is the menu session's balance from 0, and it is never negative. |

## Left out

- Console output is not modelled: `print`, colorama colouring, `common_header` and the messages of every validator. `display_user_data` only prints, so option 3 is an iteration that changes nothing.
- `input()` is replaced by a sequence of lines. When the lines run out, a prompt returns nothing. The program would block there, or stop with an uncaught EOFError.
- `KeyboardInterrupt` handling in the entry point is not modelled, because interrupts are asynchronous.
- `validate_email` calls the `email_validator` library, which is not part of this model. Its verdict is the parameter `emailOk`. The normalised address it computes is discarded by the program, so nothing is lost.
- `get_account_balance` is not modelled. It is never called, so the opening balance is never asked for. It would also replace the `bank_account` dictionary by an int.
- Text handling covers ASCII only. Unicode whitespace, Unicode case mapping in `lower()`/`title()`, and Unicode digits in `\d` and `int()` are not modelled.
- PyNumbers.ParseFloat: it accepts only sign, digits and an optional point. The rest of `float()`'s grammar is left out: exponents, `inf`/`nan`, and `_` separators (the last also for `int()`).
- PyNumbers.ParseFloatRejectsLetters: it holds only for the modelled `float()`. Python's `float()` also accepts exponents and the inf/nan spellings: `"1e3"`, `"inf"`, `"Infinity"` and `"nan"`.
- Validators.BalanceRejectsLetters: it holds only for the modelled `float()`. In the program, `validate_balance` accepts `"1e3"`, `"inf"` and `"nan"`, because `nan <= 0` is False. So the amount prompt would deposit 1000 for `"1e3"`. A nan or infinite balance has no counterpart in the model's reals.
- Amounts are exact reals, not binary floating point. So rounding and the `:.2f` formatting of printed balances are not modelled.
- The four profile validators (names, gender, age, phone) on non-`str` arguments are not modelled. On such values they raise or behave differently: `re.match` raises TypeError, `.title()` raises AttributeError, and `int()` accepts a number. The program always passes them text. `validate_balance` is different: the menu passes it the int option and the amount prompts pass it a float, and `ToFloat` models both.
- `valid_range` membership uses Dafny equality. The program's only range holds ints.
- The source's `Bank(User)` inheritance is one class, `Banking.Bank`, holding both the profile and the balance.
