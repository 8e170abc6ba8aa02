/** The keys the context strip stores: trimmed, lower-case, and teams always as "frc<number>". */
module ContextKeys {
  import opened DigitText

  // What trim() and \s take for white space.
  predicate IsSpace(c: char) {
    c in "\t\n\U{000B}\U{000C}\r \U{00A0}\U{1680}\U{2028}\U{2029}\U{202F}\U{205F}\U{3000}\U{FEFF}"
    || '\U{2000}' <= c <= '\U{200A}'
  }

  function TrimStart(s: string): (r: string)
    ensures |r| <= |s| && (r != "" ==> !IsSpace(r[0]) && r[|r| - 1] == s[|s| - 1])
  {
    if s != "" && IsSpace(s[0]) then TrimStart(s[1..]) else s
  }

  function TrimEnd(s: string): (r: string)
    ensures |r| <= |s| && (r != "" ==> !IsSpace(r[|r| - 1]) && r[0] == s[0])
  {
    if s != "" && IsSpace(s[|s| - 1]) then TrimEnd(s[..|s| - 1]) else s
  }

  function Trim(s: string): string {
    TrimEnd(TrimStart(s))
  }

  // ASCII letters only.
  function LowerChar(c: char): char {
    if 'A' <= c <= 'Z' then (c as int + 32) as char else c
  }

  function Lower(s: string): (r: string)
    ensures |r| == |s|
  {
    seq(|s|, i requires 0 <= i < |s| => LowerChar(s[i]))
  }

  // String(Number(s)) of a few digits.
  function WithoutLeadingZeros(s: string): (r: string)
    requires s != "" && AllDigits(s)
    ensures r != "" && AllDigits(r) && (r[0] == '0' ==> r == "0")
  {
    if |s| > 1 && s[0] == '0' then WithoutLeadingZeros(s[1..]) else s
  }

  // ---------- Keys; "" stands for none ----------

  function EventKey(raw: string): string {
    Lower(Trim(raw))
  }

  function DropTeam(s: string): string {
    if |s| > 4 && s[..4] == "team" && IsSpace(s[4]) then TrimStart(s[4..]) else s
  }

  function DropHash(s: string): string {
    if s != "" && s[0] == '#' then s[1..] else s
  }

  predicate IsTeamKey(s: string) {
    |s| > 3 && s[..3] == "frc" && AllDigits(s[3..])
  }

  function TeamKey(raw: string): string {
    var value := DropHash(DropTeam(Lower(Trim(raw))));
    if IsTeamKey(value) then value
    else if 1 <= |value| <= 5 && AllDigits(value) then "frc" + WithoutLeadingZeros(value)
    else ""
  }

  datatype Kind = Event | Team

  function QuickPick(kind: Kind, raw: string): string {
    match kind
    case Event => EventKey(raw)
    case Team => TeamKey(raw)
  }

  // ---------- A key stays what it is ----------

  predicate Trimmed(s: string) {
    s == "" || (!IsSpace(s[0]) && !IsSpace(s[|s| - 1]))
  }

  lemma TrimmedStays(s: string)
    requires Trimmed(s)
    ensures Trim(s) == s
  {
  }

  lemma TrimTrims(s: string)
    ensures Trimmed(Trim(s))
  {
  }

  lemma LowerTwice(s: string)
    ensures Lower(Lower(s)) == Lower(s)
    ensures Trimmed(s) ==> Trimmed(Lower(s))
  {
  }

  // What a team key looks like.
  lemma TeamKeyIs(raw: string)
    ensures TeamKey(raw) == "" || IsTeamKey(TeamKey(raw))
  {
    var value := DropHash(DropTeam(Lower(Trim(raw))));
    if !IsTeamKey(value) && 1 <= |value| <= 5 && AllDigits(value) {
      var key := "frc" + WithoutLeadingZeros(value);
      assert key[..3] == "frc" && key[3..] == WithoutLeadingZeros(value);
    }
  }

  lemma TeamKeyStays(key: string)
    requires IsTeamKey(key)
    ensures TeamKey(key) == key
  {
    assert key[0] == 'f' && key[1] == 'r' && key[2] == 'c' by {
      assert key[..3][0] == 'f' && key[..3][1] == 'r' && key[..3][2] == 'c';
    }
    forall i | 3 <= i < |key| ensures IsDigit(key[i]) {
      assert key[3..][i - 3] == key[i];
    }
    TrimmedStays(key);
    assert Lower(key) == key;
    assert key[..4][0] == 'f';
  }

  // Normalising a stored key leaves it as it is.
  lemma QuickPickStays(kind: Kind, raw: string)
    ensures QuickPick(kind, QuickPick(kind, raw)) == QuickPick(kind, raw)
  {
    match kind
    case Event =>
      TrimTrims(raw);
      LowerTwice(Trim(raw));
      TrimmedStays(Lower(Trim(raw)));
    case Team =>
      TeamKeyIs(raw);
      if TeamKey(raw) == "" {
        assert Lower("") == "";
      } else {
        TeamKeyStays(TeamKey(raw));
      }
  }

  lemma NumberIsNoWord(s: string)
    requires s != "" && AllDigits(s)
    ensures DropTeam(s) == s && DropHash(s) == s && !IsTeamKey(s)
  {
    assert IsDigit(s[0]);
    assert |s| > 4 ==> s[..4][0] == s[0];
    assert |s| > 3 ==> s[..3][0] == s[0];
  }

  lemma NumberIsPlain(s: string)
    requires s != "" && AllDigits(s)
    ensures Lower(Trim(s)) == s
  {
    assert IsDigit(s[0]) && IsDigit(s[|s| - 1]);
    TrimmedStays(s);
    assert Lower(s) == s;
  }

  lemma {:induction false} NumberKey(s: string)
    requires 1 <= |s| <= 5 && AllDigits(s)
    ensures TeamKey(s) == "frc" + WithoutLeadingZeros(s)
  {
    NumberIsPlain(s);
    NumberIsNoWord(s);
  }

  // A team's number and its key name the same team exactly when the number has no zeros in front:
  // those stay in a key written out.
  lemma SameTeamExactly(s: string)
    requires 1 <= |s| <= 5 && AllDigits(s)
    ensures TeamKey(s) == TeamKey("frc" + s) <==> (|s| == 1 || s[0] != '0')
  {
    NumberKey(s);
    var key := "frc" + s;
    assert key[..3] == "frc" && key[3..] == s;
    TeamKeyStays(key);
    assert ("frc" + WithoutLeadingZeros(s))[3..] == WithoutLeadingZeros(s);
  }
}
