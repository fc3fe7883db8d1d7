/**
 When a branch name matches a ticket: the team key, an optional hyphen and the number, not preceded by
 a letter or digit and not followed by a digit, ignoring case.  Names are ASCII.
 */
module TicketMatch {
  import opened Chars

  /** A ticket such as KYO-17. */
  datatype Ticket = Ticket(team: string, number: string)

  predicate IsAlnum(c: char) { IsDigit(c) || 'a' <= c <= 'z' || 'A' <= c <= 'Z' }

  /** What `ticket_key` produces: an alphanumeric team key and a decimal number. */
  predicate IsTicket(t: Ticket) {
    && t.team != [] && (forall i :: 0 <= i < |t.team| ==> IsAlnum(t.team[i]))
    && t.number != [] && (forall i :: 0 <= i < |t.number| ==> IsDigit(t.number[i]))
  }

  /** `word` stands in `s` at `i`, ignoring case. */
  predicate StandsAt(s: string, i: nat, word: string) {
    i + |word| <= |s| && forall k :: 0 <= k < |word| ==> LowerChar(s[i + k]) == LowerChar(word[k])
  }

  /** The number stands at `i` and no digit follows it. */
  predicate NumberAt(s: string, i: nat, number: string) {
    StandsAt(s, i, number) && (i + |number| == |s| || !IsDigit(s[i + |number|]))
  }

  predicate MatchAt(s: string, i: nat, t: Ticket) {
    && (i == 0 || (i - 1 < |s| && !IsAlnum(s[i - 1])))
    && StandsAt(s, i, t.team)
    && var j := i + |t.team|;
       NumberAt(s, j, t.number) || (j < |s| && s[j] == '-' && NumberAt(s, j + 1, t.number))
  }

  /** `matches` */
  predicate Matches(branch: string, t: Ticket) {
    exists i :: 0 <= i <= |branch| && MatchAt(branch, i, t)
  }

  const STRANDED := "stranded/"

  /** Prefixing `stranded/` never changes which tickets a branch matches. */
  lemma PrefixInert(branch: string, t: Ticket)
    requires IsTicket(t)
    ensures Matches(STRANDED + branch, t) <==> Matches(branch, t)
  {
    assert STRANDED[8] == '/' && forall k :: 0 <= k < 9 ==> !IsDigit(STRANDED[k]);
    DigitlessPrefixInert(STRANDED, branch, t);
  }

  lemma DigitlessPrefixInert(prefix: string, branch: string, t: Ticket)
    requires IsTicket(t)
    requires prefix != [] && prefix[|prefix| - 1] == '/' && forall k :: 0 <= k < |prefix| ==> !IsDigit(prefix[k])
    ensures Matches(prefix + branch, t) <==> Matches(branch, t)
  {
    var s, n := prefix + branch, |prefix|;
    if Matches(branch, t) {
      var i :| 0 <= i <= |branch| && MatchAt(branch, i, t);
      ShiftMatch(prefix, branch, i, t);
      assert MatchAt(s, i + n, t);
    }
    if Matches(s, t) {
      var i :| 0 <= i <= |s| && MatchAt(s, i, t);
      MatchIsBehindPrefix(prefix, branch, i, t);
      ShiftMatch(prefix, branch, i - n, t);
      assert MatchAt(branch, i - n, t);
    }
  }

  lemma ShiftStands(prefix: string, branch: string, i: nat, word: string)
    ensures StandsAt(prefix + branch, i + |prefix|, word) <==> StandsAt(branch, i, word)
  {
    var s, n := prefix + branch, |prefix|;
    if i + |word| <= |branch| {
      if StandsAt(s, i + n, word) {
        forall k | 0 <= k < |word|
          ensures LowerChar(branch[i + k]) == LowerChar(word[k])
        {
          assert s[i + n + k] == branch[i + k];
        }
      }
    }
  }

  lemma ShiftNumber(prefix: string, branch: string, i: nat, number: string)
    ensures NumberAt(prefix + branch, i + |prefix|, number) <==> NumberAt(branch, i, number)
  {
    ShiftStands(prefix, branch, i, number);
  }

  /** A position in the branch and its place behind a prefix that ends in no letter or digit match alike. */
  lemma ShiftMatch(prefix: string, branch: string, i: nat, t: Ticket)
    requires i <= |branch| && prefix != [] && !IsAlnum(prefix[|prefix| - 1])
    ensures MatchAt(prefix + branch, i + |prefix|, t) <==> MatchAt(branch, i, t)
  {
    var s, n := prefix + branch, |prefix|;
    var j := i + |t.team|;
    ShiftStands(prefix, branch, i, t.team);
    ShiftNumber(prefix, branch, j, t.number);
    ShiftNumber(prefix, branch, j + 1, t.number);
    assert s[i + n - 1] == if i == 0 then prefix[n - 1] else branch[i - 1];
    if j < |branch| {
      assert s[j + n] == branch[j];
    }
  }

  /**
   No match starts inside a prefix without digits that ends in a separator: it would have to run over that
   separator.
   */
  lemma MatchIsBehindPrefix(prefix: string, branch: string, i: nat, t: Ticket)
    requires IsTicket(t) && MatchAt(prefix + branch, i, t)
    requires prefix != [] && prefix[|prefix| - 1] == '/' && forall k :: 0 <= k < |prefix| ==> !IsDigit(prefix[k])
    ensures i >= |prefix|
  {
    var s, n := prefix + branch, |prefix|;
    var j := i + |t.team|;
    var k := if NumberAt(s, j, t.number) then j else j + 1;
    assert LowerChar(s[k + 0]) == LowerChar(t.number[0]);
    assert IsDigit(s[k]);
    assert forall m :: 0 <= m < n ==> s[m] == prefix[m];
    assert k >= n && s[n - 1] == '/';
    forall m | i <= m < j
      ensures IsAlnum(s[m])
    {
      assert LowerChar(s[i + (m - i)]) == LowerChar(t.team[m - i]);
    }
  }

  // ----- what a match looks like -----

  /**
   At `i` stand the team key in any case, a hyphen or nothing, and the number; before them nothing, or a character
   that is no letter or digit; behind them nothing, or a character that is no digit.
   */
  ghost predicate ShowsAt(branch: string, i: nat, hyphen: string, t: Ticket) {
    var j := i + |t.team|;
    var k := j + |hyphen|;
    var end := k + |t.number|;
    && (hyphen == "-" || hyphen == "")
    && end <= |branch|
    && (forall m :: 0 <= m < |t.team| ==> SameLetter(branch[i + m], t.team[m]))
    && branch[j..k] == hyphen && branch[k..end] == t.number
    && (i > 0 ==> !('0' <= branch[i - 1] <= '9') && !('a' <= branch[i - 1] <= 'z') && !('A' <= branch[i - 1] <= 'Z'))
    && (end < |branch| ==> !('0' <= branch[end] <= '9'))
  }

  lemma StandsIff(s: string, i: nat, word: string)
    ensures StandsAt(s, i, word)
       <==> i + |word| <= |s| && forall m :: 0 <= m < |word| ==> SameLetter(s[i + m], word[m])
  {
    if i + |word| <= |s| {
      forall m | 0 <= m < |word|
        ensures LowerChar(s[i + m]) == LowerChar(word[m]) <==> SameLetter(s[i + m], word[m])
      {
        SameLetterIff(s[i + m], word[m]);
      }
    }
  }

  /** Digits have no case. */
  lemma NumberStandsIff(s: string, i: nat, number: string)
    requires forall m :: 0 <= m < |number| ==> IsDigit(number[m])
    ensures StandsAt(s, i, number) <==> i + |number| <= |s| && s[i..i + |number|] == number
  {
    if i + |number| <= |s| {
      forall m | 0 <= m < |number|
        ensures LowerChar(s[i + m]) == LowerChar(number[m]) <==> s[i + m] == number[m]
      {
      }
      var there := s[i..i + |number|];
      assert there == number <==> forall m :: 0 <= m < |number| ==> there[m] == number[m];
    }
  }

  /** The number from `k` on, with no digit behind it. */
  lemma NumberAtIff(s: string, k: nat, number: string)
    requires forall m :: 0 <= m < |number| ==> IsDigit(number[m])
    ensures NumberAt(s, k, number)
       <==> && k + |number| <= |s| && s[k..k + |number|] == number
            && (k + |number| < |s| ==> !('0' <= s[k + |number|] <= '9'))
  {
    NumberStandsIff(s, k, number);
  }

  lemma ShowsPlain(branch: string, i: nat, t: Ticket)
    requires IsTicket(t) && i <= |branch|
    ensures ShowsAt(branch, i, "", t)
       <==> && (i == 0 || !IsAlnum(branch[i - 1]))
            && StandsAt(branch, i, t.team) && NumberAt(branch, i + |t.team|, t.number)
  {
    StandsIff(branch, i, t.team);
    NumberAtIff(branch, i + |t.team|, t.number);
    assert i + |t.team| <= |branch| ==> branch[i + |t.team|..i + |t.team| + |""|] == "";
  }

  lemma ShowsHyphen(branch: string, i: nat, t: Ticket)
    requires IsTicket(t) && i <= |branch|
    ensures ShowsAt(branch, i, "-", t)
       <==> && (i == 0 || !IsAlnum(branch[i - 1])) && StandsAt(branch, i, t.team)
            && i + |t.team| < |branch| && branch[i + |t.team|] == '-' && NumberAt(branch, i + |t.team| + 1, t.number)
  {
    var j := i + |t.team|;
    StandsIff(branch, i, t.team);
    NumberAtIff(branch, j + 1, t.number);
    if j < |branch| {
      assert branch[j..j + 1] == [branch[j]];
    }
  }

  lemma MatchAtIff(branch: string, i: nat, t: Ticket)
    requires IsTicket(t) && i <= |branch|
    ensures MatchAt(branch, i, t) <==> ShowsAt(branch, i, "", t) || ShowsAt(branch, i, "-", t)
  {
    ShowsPlain(branch, i, t);
    ShowsHyphen(branch, i, t);
  }

  /** A branch matches a ticket exactly when the ticket shows somewhere in it. */
  lemma MatchesIff(branch: string, t: Ticket)
    requires IsTicket(t)
    ensures Matches(branch, t)
            <==> exists i :: 0 <= i <= |branch| && (ShowsAt(branch, i, "", t) || ShowsAt(branch, i, "-", t))
  {
    forall i | 0 <= i <= |branch|
      ensures MatchAt(branch, i, t) <==> ShowsAt(branch, i, "", t) || ShowsAt(branch, i, "-", t)
    {
      MatchAtIff(branch, i, t);
    }
  }
}
