/** What each key does to the flat text and to the cursor's line and column in
    it, and when a key marks the text as changed. */
module EditorKeys {
  import opened Editor

  // ----- Keys that change the text -----

  /** Enter puts a newline at the cursor and goes behind it. */
  lemma EnterKey(d: Doc)
    requires CursorOk(d)
    ensures
      var d' := Keypress(d, Enter);
      && CursorOk(d') && Pos(d) <= |Text(d.rows)|
      && Text(d'.rows) == Text(d.rows)[..Pos(d)] + "\n" + Text(d.rows)[Pos(d)..] && Pos(d') == Pos(d) + 1
  {
    hide Text, Pos;
    NewlineText(d);
  }

  /** Backspace takes the byte before the cursor, if the cursor is on a row and
      not at the start, and otherwise does nothing. */
  lemma BackspaceKey(d: Doc)
    requires CursorOk(d)
    ensures
      var d' := Keypress(d, Backspace);
      && CursorOk(d') && Pos(d) <= |Text(d.rows)|
      && (0 < Pos(d) < |Text(d.rows)| ==>
            && Text(d'.rows) == Text(d.rows)[..Pos(d) - 1] + Text(d.rows)[Pos(d)..]
            && Pos(d') == Pos(d) - 1)
      && (Pos(d) == 0 || Pos(d) == |Text(d.rows)| ==> d' == d)
  {
    hide Text, Pos;
    BackspaceText(d);
    RightMoves(d);
  }

  /** A printable byte goes in at the cursor; at the end of the text it starts a
      line.  No other byte does anything. */
  lemma CharKey(d: Doc, c: char)
    requires CursorOk(d)
    ensures
      var d' := Keypress(d, Char(c));
      && Pos(d) <= |Text(d.rows)|
      && (32 <= c as int < 127 ==>
            && CursorOk(d') && Pos(d') == Pos(d) + 1
            && Text(d'.rows) == Text(d.rows)[..Pos(d)] + [c]
                                + if Pos(d) == |Text(d.rows)| then "\n" else Text(d.rows)[Pos(d)..])
      && (c as int < 32 || c as int >= 127 ==> d' == d)
  {
    hide Text, Pos;
    RightMoves(d);
    InsertCharText(d, c);
    if Pos(d) == |Text(d.rows)| {
      assert Text(d.rows)[..Pos(d)] == Text(d.rows) && [c, NEWLINE] == [c] + "\n";
    }
  }

  lemma OtherKey(d: Doc)
    requires CursorOk(d)
    ensures Keypress(d, Other) == d
  {
  }

  /** A key marks the text as changed exactly when it changes it. */
  lemma DirtyExactly(d: Doc, key: Key)
    requires CursorOk(d) && 0 <= d.rowoff <= |d.rows| && d.screenrows >= 1
    ensures Keypress(d, key).dirty <==> d.dirty || Keypress(d, key).rows != d.rows
  {
    hide InsertChar, InsertNewline, DelChar, MoveCursor;
    match key
    case Enter => NewlineChanges(d);
    case Backspace => DeletionChanges(d);
    case Delete =>
      MovesKeepText(d, ArrowRight);
      DeletionChanges(MoveCursor(d, ArrowRight));
    case Char(c) => CharChanges(d, c);
    case Other =>
    case _ => MovesKeepText(d, key);
  }

  lemma NewlineChanges(d: Doc)
    requires CursorOk(d)
    ensures InsertNewline(d).dirty && |InsertNewline(d).rows| == |d.rows| + 1
  {
  }

  lemma CharChanges(d: Doc, c: char)
    requires CursorOk(d)
    ensures InsertChar(d, c).dirty && InsertChar(d, c).rows != d.rows
  {
    if OnRow(d) {
      assert |InsertChar(d, c).rows[d.cy]| == |d.rows[d.cy]| + 1;
    }
  }

  lemma DeletionChanges(d: Doc)
    requires CursorOk(d)
    ensures DelChar(d) == d || (DelChar(d).dirty && DelChar(d).rows != d.rows)
  {
    if OnRow(d) && d.cx > 0 {
      assert |DelChar(d).rows[d.cy]| == |d.rows[d.cy]| - 1;
    } else if OnRow(d) && d.cy > 0 {
      assert |DelChar(d).rows| == |d.rows| - 1;
    }
  }

  // ----- Lines and columns of a text -----

  function Newlines(s: string): nat
    decreases |s|
  {
    if s == "" then 0 else Newlines(s[..|s| - 1]) + if s[|s| - 1] == '\n' then 1 else 0
  }

  /** The length of line y; behind the last newline there is an empty one. */
  function LineLength(s: string, y: nat): nat { if y < |Lines(s)| then |Lines(s)[y]| else 0 }

  lemma {:induction false} LinesAppend(s: string, row: string)
    requires NEWLINE !in row
    ensures Lines(s + row) == Lines(s) && Tail(s + row) == Tail(s) + row && Newlines(s + row) == Newlines(s)
    decreases |row|
  {
    if row == "" {
      assert s + row == s;
    } else {
      var front := row[..|row| - 1];
      assert (s + row)[..|s + row| - 1] == s + front && (s + row)[|s + row| - 1] == row[|row| - 1];
      LinesAppend(s, front);
      assert front + [row[|row| - 1]] == row;
    }
  }

  lemma LineEnds(s: string)
    ensures
      var t := s + [NEWLINE];
      Lines(t) == Lines(s) + [Tail(s)] && Tail(t) == "" && Newlines(t) == Newlines(s) + 1
  {
    assert (s + [NEWLINE])[..|s|] == s;
  }

  /** The lines of the text are the rows. */
  lemma {:induction false} LinesOfText(rows: seq<string>)
    requires NoNewlines(rows)
    ensures Lines(Text(rows)) == rows && Tail(Text(rows)) == "" && Newlines(Text(rows)) == |rows|
    decreases rows
  {
    hide Lines, Tail, Newlines;
    if rows == [] {
      NoLine();
    } else {
      var n := |rows| - 1;
      LinesOfText(rows[..n]);
      LinesAppend(Text(rows[..n]), rows[n]);
      LineEnds(Text(rows[..n]) + rows[n]);
      assert "" + rows[n] == rows[n] && rows == rows[..n] + [rows[n]];
    }
  }

  lemma NoLine()
    ensures Text([]) == "" && Lines("") == [] && Tail("") == "" && Newlines("") == 0
  {
  }

  /** The line and the column of the cursor. */
  function LineOf(d: Doc): nat
    requires CursorOk(d) && Pos(d) <= |Text(d.rows)|
  {
    Newlines(Text(d.rows)[..Pos(d)])
  }

  function ColumnOf(d: Doc): nat
    requires CursorOk(d) && Pos(d) <= |Text(d.rows)|
  {
    |Tail(Text(d.rows)[..Pos(d)])|
  }

  lemma BeforeCursor(d: Doc)
    requires CursorOk(d)
    ensures Pos(d) <= |Text(d.rows)|
    ensures Text(d.rows)[..Pos(d)] == Text(d.rows[..d.cy]) + if OnRow(d) then d.rows[d.cy][..d.cx] else ""
  {
    hide Text;
    TextBefore(d.rows, d.cy);
    if OnRow(d) {
      TextAround(d.rows, d.cy);
    } else {
      assert d.rows[..d.cy] == d.rows;
    }
  }

  /** The rows and the cursor can be told from the text and the offset. */
  lemma CursorInText(d: Doc)
    requires CursorOk(d) && NoNewlines(d.rows)
    ensures Pos(d) <= |Text(d.rows)| && LineOf(d) == d.cy && ColumnOf(d) == d.cx
    ensures Newlines(Text(d.rows)) == |d.rows|
    ensures forall y: nat :: LineLength(Text(d.rows), y) == if y < |d.rows| then |d.rows[y]| else 0
  {
    hide Text, Lines, Tail, Newlines, Pos;
    BeforeCursor(d);
    LinesOfText(d.rows);
    LinesOfText(d.rows[..d.cy]);
    if OnRow(d) {
      LinesAppend(Text(d.rows[..d.cy]), d.rows[d.cy][..d.cx]);
    }
    assert Text(d.rows[..d.cy]) + "" == Text(d.rows[..d.cy]);
  }

  // ----- Keys that move the cursor -----

  /** The key leaves the text, and goes to line y and to the column it was in, or
      to the line's end if the line is shorter. */
  predicate GoesToLine(d: Doc, d': Doc, y: nat) {
    && CursorOk(d) && CursorOk(d') && d'.rows == d.rows
    && Pos(d) <= |Text(d.rows)| && Pos(d') <= |Text(d'.rows)|
    && LineOf(d') == y
    && ColumnOf(d') == if LineLength(Text(d.rows), y) < ColumnOf(d) then LineLength(Text(d.rows), y) else ColumnOf(d)
  }

  lemma Goes(d: Doc, d': Doc, y: nat)
    requires CursorOk(d) && NoNewlines(d.rows) && y <= |d.rows| && d'.rows == d.rows && d'.cy == y
    requires var n := if y < |d.rows| then |d.rows[y]| else 0; d'.cx == if n < d.cx then n else d.cx
    ensures GoesToLine(d, d', y)
  {
    hide Text, LineOf, ColumnOf, Pos, LineLength, NoNewlines;
    CursorInText(d);
    CursorInText(d');
  }

  /** Up goes to the line above, unless there is none. */
  lemma UpMoves(d: Doc)
    requires Valid(d)
    ensures
      Pos(d) <= |Text(d.rows)|
      && GoesToLine(d, Keypress(d, ArrowUp), if LineOf(d) == 0 then 0 else LineOf(d) - 1)
  {
    hide Text, LineOf, Pos, GoesToLine, NoNewlines;
    CursorInText(d);
    Goes(d, Keypress(d, ArrowUp), if d.cy == 0 then 0 else d.cy - 1);
  }

  /** Down goes to the line below, at last to the empty one behind the text. */
  lemma DownMoves(d: Doc)
    requires Valid(d)
    ensures
      Pos(d) <= |Text(d.rows)|
      && GoesToLine(d, Keypress(d, ArrowDown),
                    if LineOf(d) < Newlines(Text(d.rows)) then LineOf(d) + 1 else LineOf(d))
  {
    hide Text, LineOf, Pos, GoesToLine, NoNewlines, Newlines;
    CursorInText(d);
    Goes(d, Keypress(d, ArrowDown), if d.cy < |d.rows| then d.cy + 1 else d.cy);
  }

  /** PageUp goes to the first line of the window, PageDown to its last one or
      behind the text. */
  lemma PagesMove(d: Doc)
    requires Valid(d) && d.rowoff <= d.cy
    ensures GoesToLine(d, Keypress(d, PageUp), d.rowoff)
    ensures
      var last := d.rowoff + d.screenrows - 1;
      GoesToLine(d, Keypress(d, PageDown), if last < Newlines(Text(d.rows)) then last else Newlines(Text(d.rows)))
  {
    hide Text, LineOf, Pos, GoesToLine, NoNewlines, Newlines;
    CursorInText(d);
    Goes(d, Keypress(d, PageUp), d.rowoff);
    var last := d.rowoff + d.screenrows - 1;
    Goes(d, Keypress(d, PageDown), if last > |d.rows| then |d.rows| else last);
  }

  /** Home goes right behind the previous newline, or to the start. */
  lemma HomeMoves(d: Doc)
    requires Valid(d)
    ensures
      var t, d' := Text(d.rows), Keypress(d, Home);
      && d'.rows == d.rows && CursorOk(d') && Pos(d') <= Pos(d) <= |t|
      && (Pos(d') == 0 || t[Pos(d') - 1] == '\n') && '\n' !in t[Pos(d')..Pos(d)]
  {
    hide Text;
    var t, d' := Text(d.rows), Keypress(d, Home);
    BeforeCursor(d);
    BeforeCursor(d');
    if OnRow(d) {
      assert t[Pos(d')..Pos(d)] == d.rows[d.cy][..d.cx];
    }
    EndsInNewline(d.rows[..d.cy]);
  }

  lemma EndsInNewline(rows: seq<string>)
    ensures Text(rows) == "" || Text(rows)[|Text(rows)| - 1] == NEWLINE
  {
  }

  /** End goes right before the next newline; behind the last one it stays. */
  lemma EndMoves(d: Doc)
    requires Valid(d)
    ensures
      var t, d' := Text(d.rows), Keypress(d, EndKey);
      && d'.rows == d.rows && CursorOk(d') && Pos(d) <= Pos(d') <= |t|
      && (if Pos(d) == |t| then Pos(d') == Pos(d)
          else Pos(d') < |t| && t[Pos(d')] == '\n' && '\n' !in t[Pos(d)..Pos(d')])
  {
    hide Text;
    var t, d' := Text(d.rows), Keypress(d, EndKey);
    BeforeCursor(d);
    RightMoves(d);
    if OnRow(d) {
      var row := d.rows[d.cy];
      TextAround(d.rows, d.cy);
      assert t[Pos(d)..Pos(d')] == row[d.cx..];
      assert t[Pos(d')] == NEWLINE;
    }
  }
}
