/** The sign-up form of `account.js`: on each click of the submit button,
    every `.invalid` message is hidden, then each rule shows its message. */
module Account {
  import opened Text

  /** The four `.invalid` elements, in document order. */
  datatype Message = EmptyUsername | EmptyPassword | EmptyConfPassword | DifferentMatch

  const Messages: seq<Message> := [EmptyUsername, EmptyPassword, EmptyConfPassword, DifferentMatch]

  /** Which messages are displayed. */
  datatype Display = Display(emptyUsername: bool, emptyPassword: bool, emptyConfPassword: bool,
                             differentMatch: bool)

  function Shows(d: Display, m: Message): bool {
    match m
    case EmptyUsername => d.emptyUsername
    case EmptyPassword => d.emptyPassword
    case EmptyConfPassword => d.emptyConfPassword
    case DifferentMatch => d.differentMatch
  }

  /** `d` with the display of message `m` set to `shown`. */
  function SetShown(d: Display, m: Message, shown: bool): (e: Display)
    ensures Shows(e, m) == shown
    ensures forall n: Message | n != m :: Shows(e, n) == Shows(d, n)
  {
    match m
    case EmptyUsername => d.(emptyUsername := shown)
    case EmptyPassword => d.(emptyPassword := shown)
    case EmptyConfPassword => d.(emptyConfPassword := shown)
    case DifferentMatch => d.(differentMatch := shown)
  }

  /** The rules of the click handler for a username, a password and its
      confirmation: a value counts as empty when it is empty once trimmed,
      and the two passwords are compared untrimmed. */
  predicate Meets(d: Display, username: string, password: string, again: string) {
    (d.emptyUsername <==> Trim(username) == "")
    && (d.emptyPassword <==> Trim(password) == "")
    && (d.emptyConfPassword <==> Trim(password) != "" && Trim(again) == "")
    && (d.differentMatch <==>
          Trim(username) != "" && Trim(password) != "" && Trim(again) != "" && password != again)
  }

  predicate NoneShown(d: Display) {
    !d.emptyUsername && !d.emptyPassword && !d.emptyConfPassword && !d.differentMatch
  }

  /** The click handler. What was shown before plays no part in the result. */
  method OnSubmit(shown: Display, username: string, password: string, again: string)
    returns (d: Display)
    ensures Meets(d, username, password, again)
  {
    d := shown;
    for k := 0 to |Messages|
      invariant forall j | 0 <= j < k :: !Shows(d, Messages[j])
    {
      d := SetShown(d, Messages[k], false);
    }
    assert NoneShown(d) by {
      assert !Shows(d, Messages[0]) && !Shows(d, Messages[1]);
      assert !Shows(d, Messages[2]) && !Shows(d, Messages[3]);
    }
    if Trim(username) == "" {
      d := SetShown(d, EmptyUsername, true);
    }
    if Trim(password) == "" {
      d := SetShown(d, EmptyPassword, true);
    }
    if Trim(password) != "" && Trim(again) == "" {
      d := SetShown(d, EmptyConfPassword, true);
    }
    if Trim(username) != "" && Trim(password) != "" && Trim(again) != "" && password != again {
      d := SetShown(d, DifferentMatch, true);
    }
  }

  /** The form is accepted silently exactly when all three values have a
      non-blank character and the confirmation equals the password. */
  lemma NoMessageIff(d: Display, username: string, password: string, again: string)
    requires Meets(d, username, password, again)
    ensures NoneShown(d) <==>
      !IsBlank(username) && !IsBlank(password) && !IsBlank(again) && password == again
  {
    TrimEmptyIffBlank(username);
    TrimEmptyIffBlank(password);
    TrimEmptyIffBlank(again);
  }

  /** The two password messages never appear together. */
  lemma PasswordMessagesExclusive(d: Display, username: string, password: string, again: string)
    requires Meets(d, username, password, again)
    ensures !(d.emptyPassword && d.emptyConfPassword)
    ensures d.differentMatch ==> !d.emptyUsername && !d.emptyPassword && !d.emptyConfPassword
  {
  }

  /** Passwords that differ only in surrounding spaces are reported as
      different, since the comparison is on the raw values. */
  lemma RawComparison(d: Display, username: string, password: string)
    requires Meets(d, username, password, password + " ")
    requires !IsBlank(username) && !IsBlank(password)
    ensures d.differentMatch
  {
    TrimEmptyIffBlank(username);
    TrimEmptyIffBlank(password);
    TrimEmptyIffBlank(password + " ");
    assert !IsBlank(password + " ") by {
      var i :| 0 <= i < |password| && !IsSpace(password[i]);
      assert (password + " ")[i] == password[i];
    }
    assert (password + " ")[|password|] == ' ';
  }
}
