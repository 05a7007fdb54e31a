/**
 * Tokens exchanged between the lexer and the parsers.  The kinds are the union
 * of those lex.go declares and those the parsers consume; the lexer of this
 * model produces only the former, the parsers treat every kind as input.
 */
module Tokens {

  datatype Kind =
    | Error            // a stored lex error; its text is the message
    | Eof              // end of input
    | StringLit        // a string literal, delimiters and escapes removed
    | Name             // a name starting with a lower-case letter
    | TypeName         // a type name starting with an upper-case letter
    | Equals           // =
    | Comment          // text after '#', up to the end of the line
    | ListStart        // [
    | ListEnd          // ]
    | ListSeparator    // ,
    | ObjectStart      // {
    | ObjectEnd        // }
    | ObjectSeparator  // :
    | IntLit           // an integer (declared by lex.go, never produced by it)
    | RealNumber       // produced by a number lexer that is not part of this model
    | ImaginaryNumber  // likewise
    | Variable         // @name, likewise
    | BoolLit          // true/false, likewise
    | Duration         // likewise

  datatype Token = Token(kind: Kind, text: string)
}
