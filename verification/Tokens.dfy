/** Tokens as the lexer hands them to the parser. */
module Tokens {

  datatype Kind =
    | ENDMARKER | COMMENT | NAME | NUMBER | STRING | NEWLINE | NL | INDENT | DEDENT
    | LPAREN | RPAREN | LSQB | RSQB | LBRACE | RBRACE | COLON | COMMA | SEMI | DOT
    | PLUS | MINUS | TILDE | STAR | SLASH | DOUBLESLASH | PERCENT | AT | DOUBLESTAR
    | LEFTSHIFT | RIGHTSHIFT | AMPER | CIRCUMFLEX | VBAR
    | FSTRING_START | FSTRING_MIDDLE | FSTRING_END
    | OTHER(code: nat)

  /** `start` is the offset of the first character in the program text. */
  datatype Token = Token(kind: Kind, start: nat, text: string)
}
