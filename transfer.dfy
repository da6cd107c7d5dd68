/** The send dialog: an ordered validation of recipient and amount, and a
    three-step form (1 form, 2 confirm, 3 sent) around the send call. */
module Transfer {
  import opened Common
  import opened Ethers

  datatype FormError = EmptyRecipient | InvalidRecipient | InvalidAmount | InsufficientBalance

  datatype Verdict = Accepted | Rejected(error: FormError)

  /** `Number.parseFloat` as a value: `None` is `NaN`. Every comparison
      with `NaN` is false, so `AtMostZero` and `Exceeds` below are false
      whenever a side is `None`. */
  type ParseFloat = string -> Option<real>

  predicate AtMostZero(x: Option<real>)
  {
    x.Some? && x.value <= 0.0
  }

  predicate Exceeds(x: Option<real>, y: Option<real>)
  {
    x.Some? && y.Some? && x.value > y.value
  }

  /** `validateForm`: the four checks in order, the first that fails
      decides. The first, `!recipient.trim()`, is written as the
      all-white-space test it is equivalent to (`TrimEmptyIffBlank`). */
  function ValidateForm(lib: Library, parseFloat: ParseFloat,
                        recipient: string, amount: string, balance: string): (r: Verdict)
    ensures r == Accepted ==> lib.isAddress(recipient) && amount != ""
  {
    if AllWhitespace(recipient) then Rejected(EmptyRecipient)
    else if !lib.isAddress(recipient) then Rejected(InvalidRecipient)
    else if amount == "" || AtMostZero(parseFloat(amount)) then Rejected(InvalidAmount)
    else if Exceeds(parseFloat(amount), parseFloat(balance)) then Rejected(InsufficientBalance)
    else Accepted
  }

  /** Each verdict of `validateForm` and the inputs that give it: blank
      recipient; an address `isAddress` rejects (it reads the untrimmed
      text); a missing or non-positive amount; an amount above the balance;
      otherwise acceptance. An amount or balance that does not parse passes
      the numeric checks. */
  lemma ValidateFormVerdicts(lib: Library, parseFloat: ParseFloat,
                             recipient: string, amount: string, balance: string)
    ensures var r := ValidateForm(lib, parseFloat, recipient, amount, balance);
      && (r == Rejected(EmptyRecipient) <==> Trim(recipient) == "")
      && (r == Rejected(InvalidRecipient) <==>
            !AllWhitespace(recipient) && !lib.isAddress(recipient))
      && (r == Rejected(InvalidAmount) <==>
            && !AllWhitespace(recipient) && lib.isAddress(recipient)
            && (amount == "" || AtMostZero(parseFloat(amount))))
      && (r == Rejected(InsufficientBalance) <==>
            && !AllWhitespace(recipient) && lib.isAddress(recipient)
            && !(amount == "" || AtMostZero(parseFloat(amount)))
            && Exceeds(parseFloat(amount), parseFloat(balance)))
      && (r == Accepted <==>
            && !AllWhitespace(recipient) && lib.isAddress(recipient)
            && amount != "" && !AtMostZero(parseFloat(amount))
            && !Exceeds(parseFloat(amount), parseFloat(balance)))
  {
    TrimEmptyIffBlank(recipient);
  }

  /** The balance comparison is strict: sending the whole balance passes. */
  lemma WholeBalancePasses(lib: Library, parseFloat: ParseFloat, recipient: string, balance: string)
    requires !AllWhitespace(recipient) && lib.isAddress(recipient) && balance != ""
    requires parseFloat(balance).Some? && parseFloat(balance).value > 0.0
    ensures ValidateForm(lib, parseFloat, recipient, balance, balance) == Accepted
  {
    ValidateFormVerdicts(lib, parseFloat, recipient, balance, balance);
  }

  /** An accepted amount that parses lies in `(0, balance]` whenever the
      balance parses too. */
  lemma AcceptedAmountInRange(lib: Library, parseFloat: ParseFloat,
                              recipient: string, amount: string, balance: string)
    requires ValidateForm(lib, parseFloat, recipient, amount, balance) == Accepted
    requires parseFloat(amount).Some? && parseFloat(balance).Some?
    ensures 0.0 < parseFloat(amount).value <= parseFloat(balance).value
  {
    ValidateFormVerdicts(lib, parseFloat, recipient, amount, balance);
  }

  class TransferModal {
    var recipient: string
    var amount: string
    var isLoading: bool
    var step: int
    var txHash: string

    /** One of the three steps, and no send in progress between commands. */
    ghost predicate Valid()
      reads this
    {
      1 <= step <= 3 && !isLoading
    }

    constructor ()
      ensures Valid()
      ensures recipient == "" && amount == "" && step == 1 && txHash == ""
    {
      recipient := "";
      amount := "";
      isLoading := false;
      step := 1;
      txHash := "";
    }

    /** The recipient and amount inputs of step 1. */
    method Edit(newRecipient: string, newAmount: string)
      requires Valid() && step == 1
      modifies this`recipient, this`amount
      ensures Valid()
      ensures recipient == newRecipient && amount == newAmount
    {
      recipient := newRecipient;
      amount := newAmount;
    }

    /** The "Max" button: the amount becomes the balance text. */
    method Max(balance: string)
      requires Valid() && step == 1
      modifies this`amount
      ensures Valid() && amount == balance
    {
      amount := balance;
    }

    /** "Continue", enabled only when both fields are non-empty. */
    method Continue()
      requires Valid() && step == 1 && recipient != "" && amount != ""
      modifies this`step
      ensures Valid() && step == 2
    {
      step := 2;
    }

    /** "Back" from the confirmation step. */
    method Back()
      requires Valid() && step == 2
      modifies this`step
      ensures Valid() && step == 1
    {
      step := 1;
    }

    /** `handleSend`, the "Send" button of step 2 (disabled while sending).
        `sendResult` is what building the wallet, `parseEther` and
        `sendTransaction` produced: the hash of the submitted transaction,
        or `None` when any of them threw. `attempted` is whether the send
        was made at all: it is not when validation fails, and then nothing
        changes. A successful send moves to step 3 with its hash; a failed
        one leaves step and hash alone. */
    method HandleSend(lib: Library, parseFloat: ParseFloat, balance: string, sendResult: Option<string>)
      returns (attempted: bool)
      requires Valid() && step == 2
      modifies this`isLoading, this`step, this`txHash
      ensures Valid()
      ensures attempted <==> ValidateForm(lib, parseFloat, recipient, amount, balance) == Accepted
      ensures !attempted ==> step == old(step) && txHash == old(txHash)
      ensures attempted && sendResult.Some? ==> step == 3 && txHash == sendResult.value
      ensures attempted && sendResult.None? ==> step == old(step) && txHash == old(txHash)
    {
      var verdict := ValidateForm(lib, parseFloat, recipient, amount, balance);
      if verdict != Accepted {
        return false;
      }
      attempted := true;
      isLoading := true;
      if sendResult.Some? {
        step := 3;
        txHash := sendResult.value;
      }
      isLoading := false;
    }
  }
}
