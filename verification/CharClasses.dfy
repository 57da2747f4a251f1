/** Classes of characters, spelled out. */
module CharClasses {
  import PyText
  import JsText

  const SMALL := "abcdefghijklmnopqrstuvwxyz"
  const CAPITAL := "ABCDEFGHIJKLMNOPQRSTUVWXYZ"
  const DIGITS := "0123456789"

  /** Tab, line feed, vertical tab, form feed, carriage return, space. */
  const BLANKS := "\t\n\U{0b}\U{0c}\r "
  /** The separators of files, groups, records and units, which Python counts as white space. */
  const SEPARATORS := "\U{1c}\U{1d}\U{1e}\U{1f}"
  /** The spaces of typography, from the en quad to the hair space. */
  const QUADS := "\U{2000}\U{2001}\U{2002}\U{2003}\U{2004}\U{2005}\U{2006}\U{2007}\U{2008}\U{2009}\U{200a}"
  /** The other spaces and line ends of Unicode that both languages know. */
  const FURTHER := "\U{a0}\U{1680}\U{2028}\U{2029}\U{202f}\U{205f}\U{3000}"

  lemma SmallLetters(ch: char)
    ensures ch in SMALL <==> 'a' <= ch <= 'z'
  {
    if 'a' <= ch <= 'z' {
      assert SMALL[ch as int - 'a' as int] == ch;
    }
  }

  lemma CapitalLetters(ch: char)
    ensures ch in CAPITAL <==> 'A' <= ch <= 'Z'
  {
    if 'A' <= ch <= 'Z' {
      assert CAPITAL[ch as int - 'A' as int] == ch;
    }
  }

  lemma DecimalDigits(ch: char)
    ensures ch in DIGITS <==> '0' <= ch <= '9'
  {
    if '0' <= ch <= '9' {
      assert DIGITS[ch as int - '0' as int] == ch;
    }
  }

  lemma Blanks(ch: char)
    ensures ch in BLANKS <==> '\t' <= ch <= '\r' || ch == ' '
  {
    if '\t' <= ch <= '\r' {
      assert BLANKS[ch as int - '\t' as int] == ch;
    } else if ch == ' ' {
      assert BLANKS[5] == ch;
    }
  }

  lemma Separators(ch: char)
    ensures ch in SEPARATORS <==> '\U{1c}' <= ch <= '\U{1f}'
  {
    if '\U{1c}' <= ch <= '\U{1f}' {
      assert SEPARATORS[ch as int - 0x1c] == ch;
    }
  }

  lemma Quads(ch: char)
    ensures ch in QUADS <==> '\U{2000}' <= ch <= '\U{200a}'
  {
    if '\U{2000}' <= ch <= '\U{200a}' {
      assert QUADS[ch as int - 0x2000] == ch;
    }
  }

  lemma Further(ch: char)
    ensures ch in FURTHER <==> ch in {'\U{a0}', '\U{1680}', '\U{2028}', '\U{2029}', '\U{202f}', '\U{205f}', '\U{3000}'}
  {
    if ch in {'\U{a0}', '\U{1680}', '\U{2028}', '\U{2029}', '\U{202f}', '\U{205f}', '\U{3000}'} {
      assert FURTHER[0] == '\U{a0}' && FURTHER[1] == '\U{1680}' && FURTHER[2] == '\U{2028}' && FURTHER[3] == '\U{2029}';
      assert FURTHER[4] == '\U{202f}' && FURTHER[5] == '\U{205f}' && FURTHER[6] == '\U{3000}';
    }
  }

  /** What Python's strip, split and \s take for white space, each character of it, and no other. */
  lemma PythonSpaces(ch: char)
    ensures PyText.IsSpace(ch) <==>
      ch in BLANKS || ch in SEPARATORS || ch in QUADS || ch in FURTHER || ch == '\U{85}'
  {
    Blanks(ch);
    Separators(ch);
    Quads(ch);
    Further(ch);
  }

  /** And what JavaScript's trim does: U+0085 and the four separators are no spaces to it, and the byte
      order mark is one. */
  lemma ScriptSpaces(ch: char)
    ensures JsText.IsSpace(ch) <==> ch in BLANKS || ch in QUADS || ch in FURTHER || ch == '\U{feff}'
  {
    Blanks(ch);
    Quads(ch);
    Further(ch);
  }
}
