/**
 * `User.validate_user_data`: the prompt-validate-retry loop. The console is
 * replaced by the sequence of lines the user types; `data_type` is the
 * conversion `convert` (None for the ValueError it raises), `valid_range`
 * the sequence of allowed values and `validation_func` an optional predicate.
 */
module Prompt {
  import opened Wrappers
  import opened PyText

  /** The value accepted and how many lines were read to obtain it. */
  datatype Found<T> = Found(value: T, used: nat)

  /** `data_type=str`: the text is kept as it is. */
  function AsText(s: string): Option<string> {
    Some(s)
  }

  /** One turn of the loop on one line: the converted value if the line passes every check. */
  function Accept<T(==)>(line: string, convert: string -> Option<T>, validRange: seq<T>,
                         check: Option<T -> bool>): Option<T>
  {
    var input := Strip(line);
    if input == [] then None
    else
      match convert(input)
      case None => None
      case Some(v) =>
        // an empty valid_range is falsy in Python and disables the membership test
        if |validRange| > 0 && v !in validRange then None
        else if check.Some? && !check.value(v) then None
        else Some(v)
  }

  /** What the loop returns on `lines`: the first accepted line's value; None while input runs out first. */
  function FirstValid<T(==)>(lines: seq<string>, convert: string -> Option<T>, validRange: seq<T>,
                             check: Option<T -> bool>): (r: Option<Found<T>>)
    ensures r.Some? ==> 1 <= r.value.used <= |lines|
  {
    if lines == [] then None
    else
      match Accept(lines[0], convert, validRange, check)
      case Some(v) => Some(Found(v, 1))
      case None =>
        match FirstValid(lines[1..], convert, validRange, check)
        case None => None
        case Some(f) => Some(Found(f.value, f.used + 1))
  }

  /** FirstValid returns the value of the first line the loop accepts, after rejecting every line
      before it; it returns None only when no line is accepted. */
  lemma {:induction false} FirstValidSpec<T>(lines: seq<string>, convert: string -> Option<T>,
                                            validRange: seq<T>, check: Option<T -> bool>)
    ensures var r := FirstValid(lines, convert, validRange, check);
      (r.Some? ==> Accept(lines[r.value.used - 1], convert, validRange, check) == Some(r.value.value)) &&
      (r.Some? ==> forall j :: 0 <= j < r.value.used - 1 ==> Accept(lines[j], convert, validRange, check) == None) &&
      (r.None? ==> forall j :: 0 <= j < |lines| ==> Accept(lines[j], convert, validRange, check) == None)
  {
    if lines != [] && Accept(lines[0], convert, validRange, check).None? {
      FirstValidSpec(lines[1..], convert, validRange, check);
    }
  }

  /** The first accepted line determines the result: the converse of FirstValid's contract. */
  lemma {:induction false} FirstValidIsFirstAccepted<T>(lines: seq<string>, k: nat, v: T,
      convert: string -> Option<T>, validRange: seq<T>, check: Option<T -> bool>)
    requires k < |lines|
    requires Accept(lines[k], convert, validRange, check) == Some(v)
    requires forall j :: 0 <= j < k ==> Accept(lines[j], convert, validRange, check) == None
    ensures FirstValid(lines, convert, validRange, check) == Some(Found(v, k + 1))
  {
    if k > 0 {
      FirstValidIsFirstAccepted(lines[1..], k - 1, v, convert, validRange, check);
    }
  }

  /** Rejected lines before the accepted one are consumed without effect on the result. */
  lemma {:induction false} RejectedLinesDiscarded<T>(rejected: seq<string>, rest: seq<string>,
      convert: string -> Option<T>, validRange: seq<T>, check: Option<T -> bool>)
    requires forall j :: 0 <= j < |rejected| ==> Accept(rejected[j], convert, validRange, check) == None
    ensures FirstValid(rejected + rest, convert, validRange, check) ==
      match FirstValid(rest, convert, validRange, check)
      case None => None
      case Some(f) => Some(Found(f.value, |rejected| + f.used))
  {
    if rejected == [] {
      assert rejected + rest == rest;
    } else {
      var lines := rejected + rest;
      assert lines[0] == rejected[0];
      assert lines[1..] == rejected[1..] + rest;
      assert Accept(lines[0], convert, validRange, check) == None;
      RejectedLinesDiscarded(rejected[1..], rest, convert, validRange, check);
    }
  }

  /** A blank or whitespace-only line is never accepted. */
  lemma BlankLineRejected<T>(line: string, convert: string -> Option<T>, validRange: seq<T>,
                                 check: Option<T -> bool>)
    requires AllSpace(line)
    ensures Accept(line, convert, validRange, check) == None
  {
    StripSpec(line);
  }

  /** An accepted value was converted from the stripped line, lies in `validRange` when that is
      non-empty, and satisfies the check when there is one. */
  lemma AcceptedValue<T>(line: string, v: T, convert: string -> Option<T>, validRange: seq<T>,
                             check: Option<T -> bool>)
    requires Accept(line, convert, validRange, check) == Some(v)
    ensures Strip(line) != [] && convert(Strip(line)) == Some(v)
    ensures validRange != [] ==> v in validRange
    ensures check.Some? ==> check.value(v)
  {
  }

  /** With an empty `validRange` the membership test is skipped entirely. */
  lemma EmptyRangeAcceptsAnyConverted<T>(line: string, v: T, convert: string -> Option<T>,
                                             check: Option<T -> bool>)
    requires Strip(line) != [] && convert(Strip(line)) == Some(v)
    requires check.None? || check.value(v)
    ensures Accept(line, convert, [], check) == Some(v)
  {
  }

  /** A text prompt returns the stripped line itself. */
  lemma TextPromptReturnsStripped(lines: seq<string>, check: Option<string -> bool>)
    requires FirstValid(lines, AsText, [], check).Some?
    ensures var f := FirstValid(lines, AsText, [], check).value;
      f.value == Strip(lines[f.used - 1]) && f.value != []
  {
    FirstValidSpec(lines, AsText, [], check);
  }

  /** The retry loop itself: strips each line, skips it when empty, unconvertible, out of range or
      refused by the check, and returns the first value that passes (with the lines it read). */
  method ValidateUserData<T(==)>(lines: seq<string>, convert: string -> Option<T>, validRange: seq<T>,
                                 check: Option<T -> bool>) returns (r: Option<Found<T>>)
    ensures r == FirstValid(lines, convert, validRange, check)
  {
    var i := 0;
    while i < |lines|
      invariant 0 <= i <= |lines|
      invariant forall j :: 0 <= j < i ==> Accept(lines[j], convert, validRange, check) == None
    {
      var userInput := Strip(lines[i]);
      i := i + 1;
      if userInput == [] {
        continue;
      }
      var converted := convert(userInput);
      if converted.None? {
        continue;
      }
      var value := converted.value;
      if |validRange| > 0 && value !in validRange {
        continue;
      }
      if check.Some? && !check.value(value) {
        continue;
      }
      FirstValidIsFirstAccepted(lines, i - 1, value, convert, validRange, check);
      return Some(Found(value, i));
    }
    FirstValidSpec(lines, convert, validRange, check);
    return None;
  }
}
