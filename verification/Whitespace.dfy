/** White space and line ends as ECMAScript's `trim` takes them. */
module Whitespace {
  const BLANKS := {
    '\t', '\n', '\U{000B}', '\U{000C}', '\r', ' ', '\U{00A0}', '\U{1680}',
    '\U{2000}', '\U{2001}', '\U{2002}', '\U{2003}', '\U{2004}', '\U{2005}', '\U{2006}', '\U{2007}',
    '\U{2008}', '\U{2009}', '\U{200A}', '\U{2028}', '\U{2029}', '\U{202F}', '\U{205F}', '\U{3000}', '\U{FEFF}'
  }

  predicate IsBlank(c: char) {
    c in BLANKS
  }

  /** The blanks by code: tab to carriage return, the space, and the wide and special spaces. */
  lemma BlankCodes(c: char)
    ensures IsBlank(c) <==>
              var n := c as int;
              9 <= n <= 13 || n == 32 || n == 0xA0 || n == 0x1680 || 0x2000 <= n <= 0x200A
              || n == 0x2028 || n == 0x2029 || n == 0x202F || n == 0x205F || n == 0x3000 || n == 0xFEFF
  {
  }
}
