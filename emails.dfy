/** Django's BaseUserManager.normalize_email, which create_user applies to
    every email before the user is built, and what it implies for comparing
    emails. */
module Emails {
  import opened Common
  import opened Text

  /** BaseUserManager.normalize_email, which create_user applies before it
      builds the user: when the stripped email holds an '@', the part after
      its last '@' is lower-cased and the stripped form is kept; an email
      without an '@' is returned as given, unstripped (NormaliseEmailShape
      states the other case). */
  function NormaliseEmail(e: string): (r: string)
    ensures '@' !in Strip(e) ==> r == e
  {
    var t := Strip(e);
    match LastIndex(t, '@')
    case None => e
    case Some(i) => t[..i] + "@" + Lower(t[i + 1..])
  }

  /** When the stripped email holds an '@', normalising keeps the stripped
      email up to and including its last '@', which stays the last one, and
      lower-cases what follows. */
  lemma NormaliseEmailShape(e: string)
    requires '@' in Strip(e)
    ensures LastIndex(NormaliseEmail(e), '@') == LastIndex(Strip(e), '@')
    ensures SameUpToDomainCase(NormaliseEmail(e), Strip(e), LastIndex(Strip(e), '@').value)
  {
    var t := Strip(e);
    var i := LastIndex(t, '@').value;
    assert t[i] in t;
    var d := Lower(t[i + 1..]);
    DomainLowered(t, i, d);
    AtIsLast(t, i, d);
  }

  /** r is t with the characters after position i, and only those, brought
      to lower case. */
  predicate SameUpToDomainCase(r: string, t: string, i: nat) {
    |r| == |t| && i < |r| && r[..i] == t[..i] && r[i] == t[i]
    && forall k :: i < k < |r| ==> !IsUpper(r[k]) && LowerChar(r[k]) == LowerChar(t[k])
  }

  lemma DomainLowered(t: string, i: nat, d: string)
    requires i < |t| && t[i] == '@' && d == Lower(t[i + 1..])
    ensures SameUpToDomainCase(t[..i] + "@" + d, t, i)
  {
    var r := t[..i] + "@" + d;
    assert r[i + 1..] == d;
    forall k | i < k < |r| ensures !IsUpper(r[k]) && LowerChar(r[k]) == LowerChar(t[k]) {
      assert r[k] == d[k - i - 1] == LowerChar(t[i + 1..][k - i - 1]);
    }
  }

  lemma AtIsLast(t: string, i: nat, d: string)
    requires i < |t| && '@' !in t[i + 1..]
    requires d == Lower(t[i + 1..])
    ensures LastIndex(t[..i] + "@" + d, '@') == Some(i)
  {
    var r := t[..i] + "@" + d;
    forall k | 0 <= k < |d| ensures d[k] != '@' {
      assert t[i + 1..][k] in t[i + 1..];
    }
    assert r[i + 1..] == d;
    LastIndexAt(r, '@', i);
  }

  lemma EndsKept(t: string, i: nat, d: string)
    requires i < |t|
    requires t != [] ==> !IsSpace(t[0]) && !IsSpace(t[|t| - 1])
    requires d == Lower(t[i + 1..])
    ensures Strip(t[..i] + "@" + d) == t[..i] + "@" + d
  {
    var r := t[..i] + "@" + d;
    assert r[0] == (if i == 0 then '@' else t[0]);
    assert r[|r| - 1] == (if i == |t| - 1 then '@' else LowerChar(t[|t| - 1]));
    StripUnchanged(r);
  }

  /** A normalised email has no whitespace left at either end. */
  lemma NormalisedIsStripped(e: string)
    requires '@' in Strip(e)
    ensures Strip(NormaliseEmail(e)) == NormaliseEmail(e)
  {
    var t := Strip(e);
    var i := LastIndex(t, '@').value;
    EndsKept(t, i, Lower(t[i + 1..]));
  }

  /** An email already in normal form: stripped, with nothing upper-case
      after its last '@'. */
  lemma NormalFormFixed(r: string, i: nat)
    requires Strip(r) == r && LastIndex(r, '@') == Some(i)
    requires forall k :: i < k < |r| ==> !IsUpper(r[k])
    ensures NormaliseEmail(r) == r
  {
    NormaliseStripped(r, i);
    LowerKeepsLower(r, i);
    SplitAtAt(r, i);
  }

  lemma NormaliseStripped(r: string, i: nat)
    requires Strip(r) == r && LastIndex(r, '@') == Some(i)
    ensures NormaliseEmail(r) == r[..i] + "@" + Lower(r[i + 1..])
  {
  }

  lemma LowerKeepsLower(r: string, i: nat)
    requires i < |r|
    requires forall k :: i < k < |r| ==> !IsUpper(r[k])
    ensures Lower(r[i + 1..]) == r[i + 1..]
  {
  }

  lemma SplitAtAt(r: string, i: nat)
    requires i < |r| && r[i] == '@'
    ensures r == r[..i] + "@" + r[i + 1..]
  {
  }

  /** Normalising an email a second time changes nothing. */
  lemma NormaliseEmailIdempotent(e: string)
    ensures NormaliseEmail(NormaliseEmail(e)) == NormaliseEmail(e)
  {
    if '@' in Strip(e) {
      NormalisedAgain(e);
    }
  }

  lemma NormalisedAgain(e: string)
    requires '@' in Strip(e)
    ensures NormaliseEmail(NormaliseEmail(e)) == NormaliseEmail(e)
  {
    var r := NormaliseEmail(e);
    var i := NormalisedAt(e);
    assert Strip(r) == r by { NormalisedIsStripped(e); }
    NormalFormFixed(r, i);
    assert NormaliseEmail(r) == r;
  }

  lemma NormalisedAt(e: string) returns (i: nat)
    requires '@' in Strip(e)
    ensures LastIndex(NormaliseEmail(e), '@') == Some(i)
    ensures forall k :: i < k < |NormaliseEmail(e)| ==> !IsUpper(NormaliseEmail(e)[k])
  {
    NormaliseEmailShape(e);
    i := LastIndex(NormaliseEmail(e), '@').value;
  }

  /** Emails that differ only in the case of their domain are the same
      email once normalised. */
  lemma DomainCaseIgnored()
    ensures "a@B" != "a@b" && NormaliseEmail("a@B") == "a@b"
  {
    var e := "a@B";
    assert e[..1] == "a" && e[2..] == "B" && e[1] == '@';
    assert "a" + "@" + [LowerChar('B')] == "a@b";
    assert '@' !in e[2..];
    LastIndexAt(e, '@', 1);
    StripUnchanged(e);
    NormaliseStripped(e, 1);
    LowerOne('B');
  }

  lemma LowerOne(c: char)
    ensures Lower([c]) == [LowerChar(c)]
  {
  }
}
