/**
 * The output side of rendering: an append-only buffer standing for IndentingPrintWriter.
 * Each append is kept as one token; `whitespace()` and `newline()` stay symbolic because
 * how the writer collapses spaces and indents lines belongs to the writer, not to Type.
 */
module Output {

  datatype Token = Str(s: string) | Whitespace | Newline

  /** Appending to a buffer piece by piece is appending the pieces joined together. */
  lemma AppendAssociative(start: seq<Token>, written: seq<Token>, piece: seq<Token>)
    ensures start + written + piece == start + (written + piece)
  {
  }

  /**
   * One step of a writing method's proof: the buffer held `start + written` and `piece`
   * was appended to it, so it now holds `start + (written + piece)`.
   */
  ghost function Step(start: seq<Token>, written: seq<Token>, piece: seq<Token>, tokens: seq<Token>): (w: seq<Token>)
    requires tokens == start + written + piece
    ensures w == written + piece && tokens == start + w
  {
    AppendAssociative(start, written, piece);
    written + piece
  }

  class Writer {
    var tokens: seq<Token>

    constructor ()
      ensures tokens == []
    {
      tokens := [];
    }

    method Append(s: string)
      modifies this
      ensures tokens == old(tokens) + [Str(s)]
    {
      tokens := tokens + [Str(s)];
    }

    method Space()
      modifies this
      ensures tokens == old(tokens) + [Whitespace]
    {
      tokens := tokens + [Whitespace];
    }

    method NewLine()
      modifies this
      ensures tokens == old(tokens) + [Newline]
    {
      tokens := tokens + [Newline];
    }

    /** Output written by a collaborator that renders itself onto this writer. */
    method AppendAll(ts: seq<Token>)
      modifies this
      ensures tokens == old(tokens) + ts
    {
      tokens := tokens + ts;
    }
  }
}
