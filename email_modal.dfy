/** The operator identification dialog (components/EmailModal.tsx): the e-mail
    pattern `^[^\s@]+@[^\s@]+\.[^\s@]+$`, the language it accepts, and the ordered
    checks of the submit handler. */
module EmailModal {
  import opened Types
  import opened JsString

  const RequiredMessage := "O e-mail é obrigatório."
  const InvalidMessage := "Por favor, insira um e-mail válido."

  /** One element of an anchored pattern: `Word` is the run `[^\s@]+`, `Lit(ch)` one
      literal character. */
  datatype Atom = Word | Lit(ch: char)

  /** A character of the class `[^\s@]`. */
  predicate IsWordChar(c: char) {
    !IsWhitespace(c) && c != '@'
  }

  ghost predicate AllWord(s: string) {
    forall i :: 0 <= i < |s| ==> IsWordChar(s[i])
  }

  /** Backtracking match of the whole of `s` against the atoms `p`, as a regular
      expression anchored by `^` and `$` matches: a `Word` consumes one word character
      and then either ends or goes on. A match uses at least one character per atom,
      and every character it uses is a word character or one of the pattern's literals. */
  predicate Matches(p: seq<Atom>, s: string): (r: bool)
    ensures r ==> |p| <= |s|
    ensures r ==> forall i :: 0 <= i < |s| ==> IsWordChar(s[i]) || Lit(s[i]) in p
    decreases |s|
  {
    if p == [] then s == []
    else if s == [] then false
    else match p[0]
      case Lit(ch) => s[0] == ch && Matches(p[1..], s[1..])
      case Word => IsWordChar(s[0]) && (Matches(p[1..], s[1..]) || Matches(p, s[1..]))
  }

  /** The part after the `@`: `[^\s@]+\.[^\s@]+`. */
  const DomainPattern: seq<Atom> := [Word, Lit('.'), Word]

  /** `^[^\s@]+@[^\s@]+\.[^\s@]+$`. */
  const EmailPattern: seq<Atom> := [Word, Lit('@')] + DomainPattern

  /** `d` holds a `.` that is neither its first nor its last character. */
  ghost predicate HasInnerDot(d: string) {
    exists j :: 0 < j < |d| - 1 && d[j] == '.'
  }

  /** The language of the e-mail pattern, stated without the pattern: no white space,
      exactly one `@`, a non-empty part before it, and a `.` inside the part after it.
      The `@` is at index k. */
  ghost predicate EmailShapeAt(s: string, k: int) {
    && 0 < k < |s| && s[k] == '@'
    && (forall i :: 0 <= i < |s| && s[i] == '@' ==> i == k)
    && HasInnerDot(s[k + 1..])
  }

  ghost predicate EmailShape(s: string) {
    && (forall i :: 0 <= i < |s| ==> !IsWhitespace(s[i]))
    && exists k :: EmailShapeAt(s, k)
  }

  /** A run of word characters followed by the rest of a pattern: the run ends at some
      k with 0 < k, and the rest matches from k on. */
  lemma WordThen(rest: seq<Atom>, s: string)
    ensures Matches([Word] + rest, s) <==>
            exists k :: 0 < k <= |s| && AllWord(s[..k]) && Matches(rest, s[k..])
  {
    if Matches([Word] + rest, s) {
      WordThenSplits(rest, s);
    }
    if exists k :: 0 < k <= |s| && AllWord(s[..k]) && Matches(rest, s[k..]) {
      var k :| 0 < k <= |s| && AllWord(s[..k]) && Matches(rest, s[k..]);
      WordThenJoins(rest, s, k);
    }
  }

  lemma {:induction false} WordThenSplits(rest: seq<Atom>, s: string)
    requires Matches([Word] + rest, s)
    ensures exists k :: 0 < k <= |s| && AllWord(s[..k]) && Matches(rest, s[k..])
    decreases |s|
  {
    var p := [Word] + rest;
    assert p[0] == Word && p[1..] == rest;
    if Matches(rest, s[1..]) {
      assert AllWord(s[..1]);
    } else {
      WordThenSplits(rest, s[1..]);
      var k' :| 0 < k' <= |s[1..]| && AllWord(s[1..][..k']) && Matches(rest, s[1..][k'..]);
      assert s[..k' + 1] == [s[0]] + s[1..][..k'];
      assert s[k' + 1..] == s[1..][k'..];
      assert AllWord(s[..k' + 1]);
    }
  }

  lemma {:induction false} WordThenJoins(rest: seq<Atom>, s: string, k: int)
    requires 0 < k <= |s| && AllWord(s[..k]) && Matches(rest, s[k..])
    ensures Matches([Word] + rest, s)
    decreases k
  {
    var p := [Word] + rest;
    assert p[0] == Word && p[1..] == rest;
    assert s[..k][0] == s[0];
    if k > 1 {
      assert s[1..][..k - 1] == s[..k][1..];
      assert s[1..][k - 1..] == s[k..];
      assert AllWord(s[1..][..k - 1]);
      WordThenJoins(rest, s[1..], k - 1);
    }
  }

  lemma WordOnly(t: string)
    ensures Matches([Word], t) <==> t != [] && AllWord(t)
  {
  }

  lemma DomainExact(d: string)
    ensures Matches(DomainPattern, d) <==> AllWord(d) && HasInnerDot(d)
  {
    var rest := [Lit('.'), Word];
    assert DomainPattern == [Word] + rest;
    WordThen(rest, d);
    assert rest[1..] == [Word];
    if Matches(DomainPattern, d) {
      var k :| 0 < k <= |d| && AllWord(d[..k]) && Matches(rest, d[k..]);
      var u := d[k..];
      WordOnly(u[1..]);
      assert u[0] == d[k] == '.';
      assert u[1..] == d[k + 1..];
      forall i | 0 <= i < |d| ensures IsWordChar(d[i]) {
        if i < k { assert d[..k][i] == d[i]; }
        else if i > k { assert u[1..][i - k - 1] == d[i]; }
      }
      assert 0 < k < |d| - 1;
    }
    if AllWord(d) && HasInnerDot(d) {
      var j :| 0 < j < |d| - 1 && d[j] == '.';
      var u := d[j..];
      assert u[0] == '.';
      assert u[1..] == d[j + 1..];
      WordOnly(u[1..]);
      assert Matches(rest, u);
      assert AllWord(d[..j]);
    }
  }

  /** The form the pattern match takes: word characters, the `@` at k, then a domain. */
  ghost predicate SplitAt(s: string, k: int) {
    0 < k < |s| && AllWord(s[..k]) && s[k] == '@' && AllWord(s[k + 1..]) && HasInnerDot(s[k + 1..])
  }

  lemma MatchIffSplit(s: string)
    ensures Matches(EmailPattern, s) <==> exists k :: SplitAt(s, k)
  {
    var rest := [Lit('@')] + DomainPattern;
    assert EmailPattern == [Word] + rest;
    assert rest[0] == Lit('@') && rest[1..] == DomainPattern;
    WordThen(rest, s);
    if Matches(EmailPattern, s) {
      var k :| 0 < k <= |s| && AllWord(s[..k]) && Matches(rest, s[k..]);
      var u := s[k..];
      assert u[1..] == s[k + 1..];
      DomainExact(s[k + 1..]);
      assert SplitAt(s, k);
    }
    if exists k :: SplitAt(s, k) {
      var k :| SplitAt(s, k);
      var u := s[k..];
      assert u[1..] == s[k + 1..];
      DomainExact(s[k + 1..]);
      assert Matches(rest, u);
    }
  }

  lemma SplitIffShape(s: string, k: int)
    ensures SplitAt(s, k) <==> (forall i :: 0 <= i < |s| ==> !IsWhitespace(s[i])) && EmailShapeAt(s, k)
  {
  }

  /** The language of the e-mail pattern, exactly: no white space, exactly one `@`,
      a non-empty local part, and a `.` in the domain part that is neither its first nor
      its last character. */
  lemma PatternLanguage(s: string)
    ensures Matches(EmailPattern, s) <==> EmailShape(s)
  {
    MatchIffSplit(s);
    if Matches(EmailPattern, s) {
      var k :| SplitAt(s, k);
      SplitIffShape(s, k);
    }
    if EmailShape(s) {
      var k :| EmailShapeAt(s, k);
      SplitIffShape(s, k);
    }
  }

  /** `validateEmail`: the regular expression test, which accepts exactly the strings
      of `EmailShape`. */
  predicate ValidateEmail(email: string): (r: bool)
    ensures r <==> EmailShape(email)
  {
    PatternLanguage(email);
    Matches(EmailPattern, email)
  }

  /** A blank input never passes the pattern, so the blank check only decides which of
      the two messages is shown. */
  lemma BlankIsNeverValid(s: string)
    requires IsBlank(s)
    ensures !ValidateEmail(s)
  {
  }

  /** The ordered checks of `handleSubmit`: the blank check first, then the pattern.
      Success carries the input exactly as typed; Failure carries the message shown. */
  function CheckEmail(email: string): (r: Result<string, string>)
    ensures r.Success? <==> EmailShape(email)
    ensures r.Success? ==> r.value == email
    ensures AllWhitespace(email) ==> r == Failure(RequiredMessage)
    ensures !AllWhitespace(email) && !EmailShape(email) ==> r == Failure(InvalidMessage)
  {
    if IsBlank(email) then
      BlankIsNeverValid(email);
      Failure(RequiredMessage)
    else if !ValidateEmail(email) then Failure(InvalidMessage)
    else Success(email)
  }

  /** The dialog's state: the text typed so far and the message shown under it. */
  class EmailForm {
    var email: string
    var error: string

    constructor ()
      ensures email == "" && error == ""
    {
      email := "";
      error := "";
    }

    /** The input's `onChange`. */
    method EditEmail(text: string)
      modifies this`email
      ensures email == text
    {
      email := text;
    }

    /** `handleSubmit`: sets the message and returns the value passed to `onSave`,
        if it is called. */
    method Submit() returns (saved: Option<string>)
      modifies this`error
      ensures AllWhitespace(email) ==> error == RequiredMessage && saved == None
      ensures !AllWhitespace(email) && !EmailShape(email) ==> error == InvalidMessage && saved == None
      ensures EmailShape(email) ==> error == "" && saved == Some(email)
    {
      match CheckEmail(email)
      case Failure(message) =>
        error := message;
        saved := None;
      case Success(e) =>
        error := "";
        saved := Some(e);
    }
  }
}
