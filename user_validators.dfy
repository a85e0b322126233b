/** The username validator of the user model: a regular-expression match over
    the characters `\w . @ + -`, and a detail made of the characters that
    failed it. */
module UserValidators {
  import opened Wrappers
  import Text

  /** The message the validator raises. */
  const INVALID_CHARACTERS: string := "Недопустимые символы :"

  /** One character of the class `[\w.@+-]`. */
  predicate IsAllowed(c: char) {
    Text.IsWordChar(c) || c == '.' || c == '@' || c == '+' || c == '-'
  }

  /** `re.match(r'^[\w.@+-]+\Z', value)`: one or more characters of the class,
      then the very end of the string (`\Z`, unlike `$`, does not also match
      before a final newline). */
  predicate MatchesUsernamePattern(value: string)
    decreases |value|
  {
    |value| > 0 && IsAllowed(value[0]) && (|value| == 1 || MatchesUsernamePattern(value[1..]))
  }

  /** `re.sub(r'[\w.@+-]+', '', value)`: every run of allowed characters
      removed, so what is left are the disallowed characters, in order. */
  function StripAllowed(value: string): (r: string)
    ensures |r| <= |value|
    ensures forall i :: 0 <= i < |r| ==> !IsAllowed(r[i])
  {
    if value == [] then []
    else (if IsAllowed(value[0]) then [] else [value[0]]) + StripAllowed(value[1..])
  }

  /** The substitution works piecewise: what survives of `a + b` is what
      survives of `a` followed by what survives of `b`. With one-character
      pieces this fixes the survivors' order as their order in the value. */
  lemma {:induction false} StripAllowedAppend(a: string, b: string)
    ensures StripAllowed(a + b) == StripAllowed(a) + StripAllowed(b)
    decreases |a|
  {
    if a == [] {
      assert a + b == b;
    } else {
      assert (a + b)[0] == a[0] && (a + b)[1..] == a[1..] + b;
      StripAllowedAppend(a[1..], b);
    }
  }

  /** A single character survives exactly when it is disallowed. */
  lemma StripAllowedSingle(c: char)
    ensures StripAllowed([c]) == if IsAllowed(c) then [] else [c]
  {
    assert [c][1..] == [];
  }

  /** Each disallowed character survives the substitution as often as it
      occurs; no allowed character survives. */
  lemma {:induction false} StripAllowedCounts(value: string, c: char)
    ensures multiset(StripAllowed(value))[c] == if IsAllowed(c) then 0 else multiset(value)[c]
    decreases |value|
  {
    if value != [] {
      assert value == [value[0]] + value[1..];
      StripAllowedCounts(value[1..], c);
    }
  }

  /** Nothing is left exactly when every character is allowed. */
  lemma {:induction false} StripAllowedEmptyIff(value: string)
    ensures StripAllowed(value) == [] <==> forall i :: 0 <= i < |value| ==> IsAllowed(value[i])
    decreases |value|
  {
    if value != [] {
      StripAllowedEmptyIff(value[1..]);
      if forall i :: 0 <= i < |value| ==> IsAllowed(value[i]) {
        assert forall i :: 0 <= i < |value| - 1 ==> IsAllowed(value[1..][i]);
      }
      if StripAllowed(value) == [] {
        forall i | 0 <= i < |value| ensures IsAllowed(value[i]) {
          if i > 0 { assert value[i] == value[1..][i - 1]; }
        }
      }
    }
  }

  /** Django's `ValidationError(message, code=None, params=None)`. */
  datatype UsernameError = UsernameError(message: string, code: Option<string>)

  /** The text Django shows for an error without params: its message. */
  function RenderedMessage(e: UsernameError): string {
    e.message
  }

  /** The validator as written: the stripped characters are passed as the
      second positional argument of `ValidationError`, which is its `code`. */
  function ValidateUsernameAsWritten(value: string): (r: Result<bool, UsernameError>)
    ensures r.Success? ==> r.value
    ensures r.Failure? ==> r.error == UsernameError(INVALID_CHARACTERS, Some(StripAllowed(value)))
    ensures r.Success? <==> MatchesUsernamePattern(value)
  {
    if !MatchesUsernamePattern(value) then
      Failure(UsernameError(INVALID_CHARACTERS, Some(StripAllowed(value))))
    else Success(true)
  }

  /** The validator as evidently intended: the disallowed characters follow the
      message. The user model uses this one. */
  function ValidateUsername(value: string): (r: Result<bool, UsernameError>)
    ensures r.Success? ==> r.value
    ensures r.Success? <==> MatchesUsernamePattern(value)
    ensures r.Failure? ==> r.error == UsernameError(INVALID_CHARACTERS + StripAllowed(value), None)
  {
    if !MatchesUsernamePattern(value) then
      Failure(UsernameError(INVALID_CHARACTERS + StripAllowed(value), None))
    else Success(true)
  }

  predicate IsValidUsername(value: string) {
    ValidateUsername(value).Success?
  }

  /** The pattern accepts exactly the non-empty strings of allowed characters. */
  lemma {:induction false} PatternCharacterization(value: string)
    ensures MatchesUsernamePattern(value) <==> |value| > 0 && forall i :: 0 <= i < |value| ==> IsAllowed(value[i])
    decreases |value|
  {
    if |value| > 1 {
      PatternCharacterization(value[1..]);
      if forall i :: 0 <= i < |value| ==> IsAllowed(value[i]) {
        assert forall i :: 0 <= i < |value| - 1 ==> IsAllowed(value[1..][i]);
      }
      if MatchesUsernamePattern(value) {
        forall i | 0 <= i < |value| ensures IsAllowed(value[i]) {
          if i > 0 { assert value[i] == value[1..][i - 1]; }
        }
      }
    }
  }

  /** A username is accepted exactly when it is non-empty and nothing is left
      after removing the allowed characters: the match and the substitution
      agree. */
  lemma AcceptedIffNothingStripped(value: string)
    ensures ValidateUsername(value).Success? <==> |value| > 0 && StripAllowed(value) == []
  {
    PatternCharacterization(value);
    StripAllowedEmptyIff(value);
  }

  lemma EmptyUsernameRejected()
    ensures ValidateUsername("").Failure?
  {
  }

  /** A final newline is refused: `\Z` anchors at the very end. */
  lemma TrailingNewlineRejected(value: string)
    ensures ValidateUsername(value + "\n").Failure?
  {
    var v := value + "\n";
    PatternCharacterization(v);
    assert v[|v| - 1] == '\n' && !IsAllowed('\n');
  }

  /** A rejected non-empty value always names at least one character. */
  lemma RejectionNamesCharacters(value: string)
    requires |value| > 0 && ValidateUsername(value).Failure?
    ensures StripAllowed(value) != []
    ensures ValidateUsername(value).error.message == INVALID_CHARACTERS + StripAllowed(value)
  {
    AcceptedIffNothingStripped(value);
  }

  /** As written, the offending characters never reach the message: for
      `"a!b"` the rendered text is the bare message, without the `!`, while
      the intended validator shows it. */
  lemma AsWrittenHidesCharacters()
    ensures ValidateUsernameAsWritten("a!b").Failure?
    ensures RenderedMessage(ValidateUsernameAsWritten("a!b").error) == INVALID_CHARACTERS
    ensures '!' !in RenderedMessage(ValidateUsernameAsWritten("a!b").error)
    ensures '!' in RenderedMessage(ValidateUsername("a!b").error)
  {
    var v := "a!b";
    assert !IsAllowed(v[1]);
    PatternCharacterization(v);
    assert v[1..] == "!b" && v[1..][1..] == "b";
    assert StripAllowed(v) == "!";
    assert (INVALID_CHARACTERS + "!")[|INVALID_CHARACTERS|] == '!';
  }
}
