/** Field validators of the gRPC layer (gapi/errors.go). Lengths are Go
    `len` values, that is UTF-8 bytes; the character classes are the two
    regular expressions of the file, matched against whole strings. */
module Validators {
  import opened Base
  import opened GoText

  /** The errors the validators return; the text Go formats for each is
      not modelled, only which error it is. */
  datatype FieldError =
    | LengthOutOfRange(minLen: int, maxLen: int)
    | UsernameCharset
    | FullNameCharset
    | InvalidEmail

  /** `validateString`: the byte length must lie in `[minLen, maxLen]`. */
  function ValidateString(value: string, minLen: int, maxLen: int): (r: Option<FieldError>)
    ensures r.None? <==> minLen <= ByteLen(value) <= maxLen
    ensures r.Some? ==> r.value == LengthOutOfRange(minLen, maxLen)
  {
    var x := ByteLen(value);
    if x < minLen || x > maxLen then Some(LengthOutOfRange(minLen, maxLen)) else None
  }

  predicate UsernameChar(c: char)
  {
    'a' <= c <= 'z' || '0' <= c <= '9' || c == '_'
  }

  /** `^[a-z0-9_]+$`. */
  predicate IsValidUsername(s: string)
  {
    |s| >= 1 && forall i :: 0 <= i < |s| ==> UsernameChar(s[i])
  }

  /** The class of the full-name pattern as written. The pattern is the
      raw string `^[a-zA-Z\\s]+$`, so the regular expression sees an
      escaped backslash followed by the letter `s`: ASCII letters and `\`
      only. */
  predicate FullNameCharAsWritten(c: char)
  {
    'a' <= c <= 'z' || 'A' <= c <= 'Z' || c == '\\'
  }

  predicate IsValidFullNameAsWritten(s: string)
  {
    |s| >= 1 && forall i :: 0 <= i < |s| ==> FullNameCharAsWritten(s[i])
  }

  /** RE2's `\s`: tab, newline, form feed, carriage return and space. */
  predicate PerlSpace(c: char)
  {
    c as int in {0x09, 0x0A, 0x0C, 0x0D, 0x20}
  }

  /** The class the error message describes, `[a-zA-Z\s]`: ASCII letters
      and white space. */
  predicate FullNameChar(c: char)
  {
    'a' <= c <= 'z' || 'A' <= c <= 'Z' || PerlSpace(c)
  }

  predicate IsValidFullName(s: string)
  {
    |s| >= 1 && forall i :: 0 <= i < |s| ==> FullNameChar(s[i])
  }

  function ValidateUsername(value: string): (r: Option<FieldError>)
    ensures ValidateString(value, 3, 32).Some? ==> r == ValidateString(value, 3, 32)
  {
    if ValidateString(value, 3, 32).Some? then ValidateString(value, 3, 32)
    else if !IsValidUsername(value) then Some(UsernameCharset)
    else None
  }

  /** `ValidateFullName` as written, with the pattern's class as the
      regular expression reads it. */
  function ValidateFullNameAsWritten(value: string): (r: Option<FieldError>)
    ensures ValidateString(value, 3, 50).Some? ==> r == ValidateString(value, 3, 50)
  {
    if ValidateString(value, 3, 50).Some? then ValidateString(value, 3, 50)
    else if !IsValidFullNameAsWritten(value) then Some(FullNameCharset)
    else None
  }

  /** `ValidateFullName` with the class its error message describes. */
  function ValidateFullName(value: string): (r: Option<FieldError>)
    ensures ValidateString(value, 3, 50).Some? ==> r == ValidateString(value, 3, 50)
  {
    if ValidateString(value, 3, 50).Some? then ValidateString(value, 3, 50)
    else if !IsValidFullName(value) then Some(FullNameCharset)
    else None
  }

  /** `ValidatePassword`: 8 to 20 bytes, any characters. */
  function ValidatePassword(value: string): (r: Option<FieldError>)
    ensures r.None? <==> 8 <= ByteLen(value) <= 20
  {
    ValidateString(value, 8, 20)
  }

  /** `ValidateEmail` as written. `parses(v)` says whether
      `mail.ParseAddress(v)` succeeds. Line 55 binds the returned address,
      not the error, to `err`, so the address is rejected exactly when it
      parses. */
  function ValidateEmailAsWritten(value: string, parses: string -> bool): (r: Option<FieldError>)
    ensures ValidateString(value, 5, 50).Some? ==> r == ValidateString(value, 5, 50)
  {
    if ValidateString(value, 5, 50).Some? then ValidateString(value, 5, 50)
    else if parses(value) then Some(InvalidEmail)
    else None
  }

  /** `ValidateEmail` rejecting the addresses that do not parse. */
  function ValidateEmail(value: string, parses: string -> bool): (r: Option<FieldError>)
    ensures ValidateString(value, 5, 50).Some? ==> r == ValidateString(value, 5, 50)
  {
    if ValidateString(value, 5, 50).Some? then ValidateString(value, 5, 50)
    else if !parses(value) then Some(InvalidEmail)
    else None
  }

  /** The full-name validator of a revision: the pattern as the regular
      expression reads it, or the class its error message describes. */
  function ValidateFullNameIn(rev: Revision, value: string): Option<FieldError>
  {
    match rev
    case AsWritten => ValidateFullNameAsWritten(value)
    case Intended => ValidateFullName(value)
  }

  /** The e-mail validator of a revision: the inverted check as written,
      or the rejection of unparsable addresses. */
  function ValidateEmailIn(rev: Revision, value: string, parses: string -> bool): Option<FieldError>
  {
    match rev
    case AsWritten => ValidateEmailAsWritten(value, parses)
    case Intended => ValidateEmail(value, parses)
  }

  /** The two full-name revisions on "Jo Li". */
  lemma FullNameRevisionsDiffer()
    ensures ValidateFullNameIn(AsWritten, "Jo Li") == Some(FullNameCharset)
    ensures ValidateFullNameIn(Intended, "Jo Li") == None
  {
    FullNameRejectsSpaceAsWritten();
    FullNameAcceptsSpace();
  }

  /** The two e-mail revisions on an address "a@b.co" that parses. */
  lemma EmailRevisionsDiffer(parses: string -> bool)
    requires parses("a@b.co")
    ensures ValidateEmailIn(AsWritten, "a@b.co", parses) == Some(InvalidEmail)
    ensures ValidateEmailIn(Intended, "a@b.co", parses) == None
  {
    var email := "a@b.co";
    assert IsAscii(email);
    ByteLenAscii(email);
    EmailAsWritten(email, parses);
    EmailAccepted(email, parses);
  }

  /** A sample username and password that both validators accept. */
  lemma SampleCredentialsValid()
    ensures ValidateUsername("jo_li") == None
    ensures ValidatePassword("secret123") == None
  {
    var name, password := "jo_li", "secret123";
    assert IsAscii(name) && IsAscii(password);
    ByteLenAscii(name);
    ByteLenAscii(password);
    assert forall i :: 0 <= i < |name| ==> UsernameChar(name[i]);
    UsernameAccepted(name);
  }

  /** A username is accepted exactly when it has 3 to 32 characters, all
      lower-case ASCII letters, digits or underscores. */
  lemma UsernameAccepted(value: string)
    ensures ValidateUsername(value).None? <==>
      3 <= |value| <= 32 && forall i :: 0 <= i < |value| ==> UsernameChar(value[i])
  {
    if forall i :: 0 <= i < |value| ==> UsernameChar(value[i]) {
      ByteLenAscii(value);
    }
  }

  /** As written, a full name is accepted exactly when it has 3 to 50
      characters, all ASCII letters or backslashes. */
  lemma FullNameAcceptedAsWritten(value: string)
    ensures ValidateFullNameAsWritten(value).None? <==>
      3 <= |value| <= 50 && forall i :: 0 <= i < |value| ==> FullNameCharAsWritten(value[i])
  {
    if forall i :: 0 <= i < |value| ==> FullNameCharAsWritten(value[i]) {
      ByteLenAscii(value);
    }
  }

  /** As written, a space is not accepted in a full name although the
      error message says it should be. */
  lemma FullNameRejectsSpaceAsWritten()
    ensures ValidateFullNameAsWritten("Jo Li") == Some(FullNameCharset)
  {
    var name := "Jo Li";
    assert IsAscii(name);
    ByteLenAscii(name);
    assert !FullNameCharAsWritten(name[2]);
  }

  /** As written, a backslash is accepted in a full name. */
  lemma FullNameAcceptsBackslashAsWritten()
    ensures ValidateFullNameAsWritten("Jo\\Li") == None
  {
    var name := "Jo\\Li";
    assert forall i :: 0 <= i < |name| ==> FullNameCharAsWritten(name[i]);
    FullNameAcceptedAsWritten(name);
  }

  /** A full name is accepted exactly when it has 3 to 50 characters, all
      ASCII letters or white space. */
  lemma FullNameAccepted(value: string)
    ensures ValidateFullName(value).None? <==>
      3 <= |value| <= 50 && forall i :: 0 <= i < |value| ==> FullNameChar(value[i])
  {
    if forall i :: 0 <= i < |value| ==> FullNameChar(value[i]) {
      ByteLenAscii(value);
    }
  }

  /** A first and last name separated by a space is accepted. */
  lemma FullNameAcceptsSpace()
    ensures ValidateFullName("Jo Li") == None
  {
    var name := "Jo Li";
    assert forall i :: 0 <= i < |name| ==> FullNameChar(name[i]);
    FullNameAccepted(name);
  }

  /** A backslash is not accepted in a full name. */
  lemma FullNameRejectsBackslash()
    ensures ValidateFullName("Jo\\Li") == Some(FullNameCharset)
  {
    var name := "Jo\\Li";
    assert IsAscii(name);
    ByteLenAscii(name);
    assert !FullNameChar(name[2]);
  }

  /** Passwords are measured in bytes: seven two-byte letters pass the
      eight-byte minimum, seven ASCII letters do not. */
  lemma PasswordCountsBytes()
    ensures ValidatePassword("ééééééé") == None
    ensures ValidatePassword("abcdefg") == Some(LengthOutOfRange(8, 20))
  {
    ByteLenAscii("abcdefg");
  }

  /** As written, an address of acceptable length is rejected exactly when
      `mail.ParseAddress` accepts it. */
  lemma EmailAsWritten(value: string, parses: string -> bool)
    requires 5 <= ByteLen(value) <= 50
    ensures ValidateEmailAsWritten(value, parses).None? <==> !parses(value)
    ensures ValidateEmailAsWritten(value, parses).Some? ==> ValidateEmailAsWritten(value, parses) == Some(InvalidEmail)
  {
  }

  /** An address of acceptable length is accepted exactly when it parses;
      outside the length bounds the length error wins. */
  lemma EmailAccepted(value: string, parses: string -> bool)
    ensures ValidateEmail(value, parses).None? <==> 5 <= ByteLen(value) <= 50 && parses(value)
    ensures 5 <= ByteLen(value) <= 50 && !parses(value) ==> ValidateEmail(value, parses) == Some(InvalidEmail)
  {
  }
}
