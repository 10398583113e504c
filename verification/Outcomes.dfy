/** Result types shared by the checkers, and the blank-text test all three of them make. */
module Outcomes {

  datatype Option<+T> = None | Some(value: T)

  /** The message codes of the checkers; the slashes and underscores of toc/begincmd or arg_list are dropped. */
  datatype Code =
    | Mpbegin | Hdrcmd | Bodycmd | BodyOnly | Nodonecmd | Nolistcmd | Nolisthdr | Nolisttxt | Listcmd | Invalidlist
    | Deflist | ArgList | CmdList | OptList | TkoptionList | Bulletlist | Enumlist | Examplecmd
    | EndOpenList | EndOpenExample | EndOpenMp | EndOpenToc | EndOpenIdx
    | TocBegincmd | TocEndcmd | TocSectcmd | TocSectecmd | TocItemcmd | TocNodonecmd | TocPlaintext
    | IdxBegincmd | IdxEndcmd | IdxKeycmd | IdxManpagecmd | IdxUrlcmd | IdxNodonecmd | IdxPlaintext
    | EmptyTuple  // the panic over an aggregation value without keys
    | MissingKey  // Tcl's own complaint about reading an array element that is not there
    | TclError    // its complaint about an unknown command, an unset variable or characters after a closing quote
    | EndInMacro  // the expander's complaint about a document that ends in a macro
    | NoResult    // C code that reads an unset variable or writes behind a buffer: nothing is known from there on
    | NoTree      // a parser finds no tree to continue; no checker raises it

  /** What a checker command does: carry on, or raise the error with the given message code. */
  datatype Outcome = Ok | Error(code: Code)

  /** The value a state machine reaches, or the message code of the error that stopped it. */
  datatype Result<+T> = Success(value: T) | Failure(code: Code)

  /** Nothing but the characters that plain_text maps away: blanks, tabs and newlines. */
  predicate Blank(text: string)
  {
    forall i :: 0 <= i < |text| ==> text[i] in {' ', '\t', '\n'}
  }
}
