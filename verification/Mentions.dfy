/** Mention detection in chat text: the skipping scan of `containsMention`. */
module Mentions {
  import opened Text

  predicate IsLoginCharacter(c: char) {
    c == '_' || 'a' <= c <= 'z' || '0' <= c <= '9'
  }

  lemma LoginCharacters(c: char)
    ensures IsLoginCharacter(c) <==> c in "abcdefghijklmnopqrstuvwxyz0123456789_"
  {
  }

  predicate OccursAt(text: string, needle: string, i: int) {
    0 <= i <= |text| - |needle| && text[i..i + |needle|] == needle
  }

  /** An occurrence that ends the text or is followed by a byte no login contains. */
  predicate MentionAt(text: string, needle: string, i: int) {
    OccursAt(text, needle, i) && (i + |needle| == |text| || !IsLoginCharacter(text[i + |needle|]))
  }

  ghost predicate Mentioned(text: string, needle: string) {
    exists i :: MentionAt(text, needle, i)
  }

  /** A proper border of the needle whose next character is a login character: an occurrence
      starting inside another one that the scan would skip. */
  predicate LoginBorder(needle: string, k: int) {
    0 < k < |needle| && needle[|needle| - k..] == needle[..k] && IsLoginCharacter(needle[k])
  }

  ghost predicate NoLoginBorder(needle: string) {
    forall k :: !LoginBorder(needle, k)
  }

  // ---------------------------------------------------------------- the scan

  /** Offset of the first occurrence at or after `from`, or -1. */
  function FirstFrom(text: string, needle: string, from: nat): (i: int)
    requires from <= |text|
    ensures i == -1 || (from <= i && OccursAt(text, needle, i))
    ensures forall j :: from <= j && (i == -1 || j < i) ==> !OccursAt(text, needle, j)
    decreases |text| - from
  {
    if OccursAt(text, needle, from) then from
    else if from == |text| then -1
    else FirstFrom(text, needle, from + 1)
  }

  /** The loop of `containsMention` from a given offset. */
  function Scan(text: string, needle: string, offset: nat): bool
    requires needle != "" && offset <= |text|
    decreases |text| - offset
  {
    var i := FirstFrom(text, needle, offset);
    if i == -1 then false
    else
      var end := i + |needle|;
      end == |text| || !IsLoginCharacter(text[end]) || Scan(text, needle, end)
  }

  method ContainsMention(text: string, login: string, toLower: string -> string) returns (found: bool)
    ensures TrimSpace(login) == "" ==> !found
    ensures TrimSpace(login) != "" ==> found == Scan(toLower(text), "@" + toLower(TrimSpace(login)), 0)
    ensures found ==> Mentioned(toLower(text), "@" + toLower(TrimSpace(login)))
    ensures TrimSpace(login) != "" && '@' !in toLower(TrimSpace(login)) ==>
      found == Mentioned(toLower(text), "@" + toLower(TrimSpace(login)))
  {
    hide TrimSpace, Mentioned, FirstFrom;
    var trimmed := TrimSpace(login);
    if trimmed == "" {
      return false;
    }
    var lowerText := toLower(text);
    var needle := "@" + toLower(trimmed);
    ScanIsSound(lowerText, needle, 0);
    if '@' !in toLower(trimmed) {
      SingleAtHasNoLoginBorder(toLower(trimmed));
      ScanIsExact(lowerText, needle);
    }
    var offset := 0;
    while offset < |lowerText|
      invariant 0 <= offset <= |lowerText|
      invariant Scan(lowerText, needle, 0) == Scan(lowerText, needle, offset)
    {
      var index := FirstFrom(lowerText, needle, offset);
      if index < 0 {
        return false;
      }
      var end := index + |needle|;
      if end == |lowerText| || !IsLoginCharacter(lowerText[end]) {
        return true;
      }
      offset := end;
    }
    return false;
  }

  // ---------------------------------------------------------------- correctness

  lemma {:induction false} ScanIsSound(text: string, needle: string, offset: nat)
    requires needle != "" && offset <= |text|
    ensures Scan(text, needle, offset) ==> Mentioned(text, needle)
    decreases |text| - offset
  {
    var i := FirstFrom(text, needle, offset);
    if i != -1 {
      if MentionAt(text, needle, i) {
      } else {
        ScanIsSound(text, needle, i + |needle|);
      }
    }
  }

  /** Two occurrences that overlap make a border. */
  lemma OverlapIsBorder(text: string, needle: string, i: int, j: int)
    requires OccursAt(text, needle, i) && OccursAt(text, needle, j)
    requires i < j < i + |needle| < |text|
    requires IsLoginCharacter(text[i + |needle|])
    ensures LoginBorder(needle, i + |needle| - j)
  {
  }

  lemma {:induction false} ScanFindsMention(text: string, needle: string, offset: nat, j: int)
    requires needle != "" && offset <= |text|
    requires NoLoginBorder(needle)
    requires offset <= j && MentionAt(text, needle, j)
    ensures Scan(text, needle, offset)
    decreases |text| - offset
  {
    var i := FirstFrom(text, needle, offset);
    var end := i + |needle|;
    if end < |text| && IsLoginCharacter(text[end]) {
      if j < end {
        if i < j {
          OverlapIsBorder(text, needle, i, j);
        }
        assert false;
      } else {
        ScanFindsMention(text, needle, end, j);
      }
    }
  }

  lemma ScanIsExact(text: string, needle: string)
    requires needle != "" && NoLoginBorder(needle)
    ensures Scan(text, needle, 0) == Mentioned(text, needle)
  {
    ScanIsSound(text, needle, 0);
    if j :| MentionAt(text, needle, j) {
      ScanFindsMention(text, needle, 0, j);
    }
  }

  /** A needle with such a border is missed in the text made of two overlapping copies. */
  lemma BorderBreaksScan(needle: string, k: int)
    requires LoginBorder(needle, k)
    ensures Mentioned(needle + needle[k..], needle) && !Scan(needle + needle[k..], needle, 0)
  {
    var n, text := |needle|, needle + needle[k..];
    assert text[n - k..n] == needle[n - k..] == needle[..k];
    assert text[n - k..] == needle[..k] + needle[k..] == needle;
    assert text[n - k..2 * n - k] == needle;
    assert MentionAt(text, needle, n - k);
    assert OccursAt(text, needle, 0);
    assert FirstFrom(text, needle, 0) == 0;
    assert text[n] == needle[k];
    assert FirstFrom(text, needle, n) == -1;
  }

  /** The scan agrees with its meaning on every text exactly when the needle has no such border. */
  lemma ScanIsExactIff(needle: string)
    requires needle != ""
    ensures (forall text :: Scan(text, needle, 0) == Mentioned(text, needle)) <==> NoLoginBorder(needle)
  {
    if NoLoginBorder(needle) {
      forall text ensures Scan(text, needle, 0) == Mentioned(text, needle) {
        ScanIsExact(text, needle);
      }
    } else {
      var k :| LoginBorder(needle, k);
      BorderBreaksScan(needle, k);
      assert Scan(needle + needle[k..], needle, 0) != Mentioned(needle + needle[k..], needle);
    }
  }

  /** A login without '@' gives a needle that cannot overlap itself. */
  lemma SingleAtHasNoLoginBorder(login: string)
    requires '@' !in login
    ensures NoLoginBorder("@" + login)
  {
    var needle := "@" + login;
    forall k | 0 < k < |needle| ensures !LoginBorder(needle, k) {
      assert needle[|needle| - k..][0] == login[|needle| - k - 1];
      assert needle[..k][0] == '@';
    }
  }

  /** The login "a@" shows the failure: "@a@a@" holds a mention that is skipped. */
  lemma LoginWithAtIsMissed()
    ensures Mentioned("@a@a@", "@a@") && !Scan("@a@a@", "@a@", 0)
  {
    assert LoginBorder("@a@", 1);
    assert "@a@" + "@a@"[1..] == "@a@a@";
    BorderBreaksScan("@a@", 1);
  }
}
