/** Which bytes each one-instruction pattern takes, and where each anchor holds, spelled out in characters. */
module ByteTests {
  import opened Machine

  lemma {:induction false} DigitCodes(b: Byte)
    ensures b as char in "0123456789" <==> 48 <= b <= 57
  {
    var s := "0123456789";
    if 48 <= b <= 57 { assert s[b - 48] == b as char; }
  }

  lemma {:induction false} LowerCodes(b: Byte)
    ensures b as char in "abcdefghijklmnopqrstuvwxyz" <==> 97 <= b <= 122
    ensures forall k :: 0 <= k < 26 ==> "abcdefghijklmnopqrstuvwxyz"[k] == (97 + k) as char
  {
    var s := "abcdefghijklmnopqrstuvwxyz";
    assert forall k :: 0 <= k < 26 ==> s[k] == (97 + k) as char;
    if 97 <= b <= 122 { assert s[b - 97] == b as char; }
  }

  lemma {:induction false} UpperCodes(b: Byte)
    ensures b as char in "ABCDEFGHIJKLMNOPQRSTUVWXYZ" <==> 65 <= b <= 90
    ensures forall k :: 0 <= k < 26 ==> "ABCDEFGHIJKLMNOPQRSTUVWXYZ"[k] == (65 + k) as char
  {
    var s := "ABCDEFGHIJKLMNOPQRSTUVWXYZ";
    assert forall k :: 0 <= k < 26 ==> s[k] == (65 + k) as char;
    if 65 <= b <= 90 { assert s[b - 65] == b as char; }
  }

  /** \d, \w and \s take these characters, and each capital form exactly the others; flags do not matter. */
  lemma {:induction false} SetsTaken(flags: Flags, b: Byte)
    ensures Matches(flags, Digit, b) <==> b as char in "0123456789"
    ensures Matches(flags, NDigit, b) <==> b as char !in "0123456789"
    ensures Matches(flags, Word, b) <==>
      b as char in "0123456789" || b as char in "abcdefghijklmnopqrstuvwxyz" || b as char in "ABCDEFGHIJKLMNOPQRSTUVWXYZ" || b as char == '_'
    ensures Matches(flags, NWord, b) <==> !Matches(flags, Word, b)
    ensures Matches(flags, Space, b) <==> b as char in " \t\n\U{0B}\U{0C}\r"
    ensures Matches(flags, NSpace, b) <==> b as char !in " \t\n\U{0B}\U{0C}\r"
    ensures Matches(flags, Any, b) <==> b as char != '\n' || flags.dotAll
  {
    DigitCodes(b);
    LowerCodes(b);
    UpperCodes(b);
  }

  /** b and c are the two cases of one letter. */
  ghost predicate CasesOf(b: Byte, c: Byte) {
    exists k :: 0 <= k < 26 &&
      ((b as char == "abcdefghijklmnopqrstuvwxyz"[k] && c as char == "ABCDEFGHIJKLMNOPQRSTUVWXYZ"[k]) ||
       (c as char == "abcdefghijklmnopqrstuvwxyz"[k] && b as char == "ABCDEFGHIJKLMNOPQRSTUVWXYZ"[k]))
  }

  lemma {:induction false} CasesCodes(b: Byte, c: Byte)
    ensures CasesOf(b, c) <==> (97 <= b <= 122 && c == b - 32) || (97 <= c <= 122 && b == c - 32)
  {
    LowerCodes(b);
    UpperCodes(c);
    if 97 <= b <= 122 && c == b - 32 {
      var k := b - 97;
      assert 0 <= k < 26 && b as char == "abcdefghijklmnopqrstuvwxyz"[k] && c as char == "ABCDEFGHIJKLMNOPQRSTUVWXYZ"[k];
    }
    if 97 <= c <= 122 && b == c - 32 {
      var k := c - 97;
      assert 0 <= k < 26 && c as char == "abcdefghijklmnopqrstuvwxyz"[k] && b as char == "ABCDEFGHIJKLMNOPQRSTUVWXYZ"[k];
    }
  }

  /** A character takes itself, and the other case of its letter when case is ignored. */
  lemma {:induction false} CharTaken(flags: Flags, c: Byte, b: Byte)
    ensures Matches(flags, Char(c), b) <==> b == c || (flags.ignoreCase && CasesOf(b, c))
  {
    CasesCodes(b, c);
    hide CasesOf;
  }

  /** A class takes its members; when case is ignored, a capital counts as its small letter. */
  lemma {:induction false} ClassTaken(flags: Flags, members: set<Byte>, b: Byte)
    ensures !flags.ignoreCase || b as char !in "ABCDEFGHIJKLMNOPQRSTUVWXYZ" ==> (Matches(flags, Class(members), b) <==> b in members)
    ensures forall k :: flags.ignoreCase && 0 <= k < 26 && b as char == "ABCDEFGHIJKLMNOPQRSTUVWXYZ"[k] ==>
      (Matches(flags, Class(members), b) <==> "abcdefghijklmnopqrstuvwxyz"[k] as int in members)
    ensures Matches(flags, NClass(members), b) <==> !Matches(flags, Class(members), b)
  {
    UpperCodes(b);
    LowerCodes(b);
  }

  /** The character at pos is one that \w takes; there is none outside the text. */
  ghost predicate WordChar(text: seq<Byte>, pos: int) {
    0 <= pos < |text| &&
    (var c := text[pos] as char;
     c in "0123456789" || c in "abcdefghijklmnopqrstuvwxyz" || c in "ABCDEFGHIJKLMNOPQRSTUVWXYZ" || c == '_')
  }

  /** Where the position tests hold. */
  lemma {:induction false} AnchorsHold(flags: Flags, text: seq<Byte>, pos: nat)
    requires pos <= |text|
    ensures AnchorOk(flags, Bol, text, pos) <==> pos == 0 || (flags.multiline && text[pos - 1] as char == '\n')
    ensures AnchorOk(flags, Eol, text, pos) <==> pos == |text| || (flags.multiline && text[pos] as char == '\n')
    ensures AnchorOk(flags, Bos, text, pos) <==> pos == 0
    ensures AnchorOk(flags, Eos, text, pos) <==> pos == |text|
    ensures AnchorOk(flags, WordBnd, text, pos) <==> (WordChar(text, pos - 1) != WordChar(text, pos))
    ensures AnchorOk(flags, NWordBnd, text, pos) <==> (WordChar(text, pos - 1) == WordChar(text, pos))
  {
    WordCharIs(text, pos - 1);
    WordCharIs(text, pos);
    hide WordChar, WordAt;
  }

  lemma {:induction false} WordCharIs(text: seq<Byte>, pos: int)
    ensures WordChar(text, pos) <==> WordAt(text, pos)
  {
    if 0 <= pos < |text| {
      DigitCodes(text[pos]);
      LowerCodes(text[pos]);
      UpperCodes(text[pos]);
    }
  }
}
