/** The text editor as it stores its rows: an array of sizes beside an array of
    buffers, edited in place.  Every operation does what Editor says. */
module EditorRows {
  import opened Editor

  const NUL := '\0'

  class TextEditor {
    var cx: int
    var cy: int
    var rowoff: int
    var coloff: int
    var screenrows: int
    var screencols: int
    var numrows: int
    var rowSize: array<int>
    var rowChars: array<array?<char>>
    var dirty: bool
    ghost var rows: seq<string>

    ghost function Buffers(): set<object>
      reads this, rowChars
    {
      set i | 0 <= i < rowChars.Length && rowChars[i] != null :: rowChars[i]
    }

    ghost function Repr(): set<object>
      reads this, rowChars
    {
      {this, rowSize, rowChars} + Buffers()
    }

    /** The buffer at i holds a row of that size and a NUL after it. */
    ghost predicate HoldsRow(i: int, row: string)
      reads this, rowSize, rowChars, Buffers()
    {
      && 0 <= i < rowChars.Length && i < rowSize.Length && rowChars[i] != null
      && rowSize[i] == |row| < rowChars[i].Length
      && rowChars[i][..|row|] == row && rowChars[i][|row|] == NUL
    }

    /** Every row has a buffer of its own. */
    ghost predicate Valid()
      reads this, rowSize, rowChars, Buffers()
    {
      && |rows| == numrows && numrows <= rowSize.Length && numrows <= rowChars.Length
      && (forall i :: 0 <= i < numrows ==> HoldsRow(i, rows[i]))
      && (forall i, j :: 0 <= i < j < numrows ==> rowChars[i] != rowChars[j])
    }

    ghost function State(): Doc
      reads this
    {
      Doc(rows, cx, cy, rowoff, coloff, screenrows, screencols, dirty)
    }

    constructor (screenRows: int, screenCols: int)
      ensures Valid() && fresh(Repr())
      ensures State() == Doc([], 0, 0, 0, 0, screenRows, screenCols, false)
    {
      cx, cy, rowoff, coloff := 0, 0, 0, 0;
      screenrows, screencols := screenRows, screenCols;
      numrows, dirty := 0, false;
      rowSize := new int[0];
      rowChars := new array?<char>[0];
      rows := [];
    }

    /** Puts the cursor's field updates in one place: the rows stay valid. */
    method Place(x: int, y: int)
      requires Valid()
      modifies this`cx, this`cy
      ensures Valid() && State() == old(State()).(cx := x, cy := y) && Repr() == old(Repr())
    {
      cx, cy := x, y;
    }

    /** realloc of both arrays to one entry more than there are rows. */
    method GrowRows()
      requires Valid()
      modifies this`rowSize, this`rowChars
      ensures Valid() && fresh(rowSize) && fresh(rowChars)
      ensures rowSize.Length == rowChars.Length == numrows + 1 && rowChars[numrows] == null
      ensures Buffers() <= old(Buffers())
      ensures forall i :: 0 <= i < numrows ==> rowSize[i] == old(rowSize[i]) && rowChars[i] == old(rowChars[i])
    {
      var sizes := new int[numrows + 1];
      var chars := new array?<char>[numrows + 1](_ => null);
      var sizes0, chars0 := rowSize, rowChars;
      var i := 0;
      while i < numrows
        invariant 0 <= i <= numrows && chars[numrows] == null
        invariant forall j :: 0 <= j < i ==> sizes[j] == sizes0[j] && chars[j] == chars0[j]
        modifies sizes, chars
      {
        sizes[i], chars[i] := sizes0[i], chars0[i];
        i := i + 1;
      }
      rowSize, rowChars := sizes, chars;
    }

    method AppendRow(s: string)
      requires Valid()
      modifies this, rowSize, rowChars
      ensures Valid() && fresh(Repr() - old(Repr()))
      ensures State() == Editor.AppendRow(old(State()), s)
    {
      hide TextEditor.HoldsRow;
      GrowRows();
      var b := NewBuffer(s);
      SetLast(s, b);
    }

    /** The row after the last one gets its buffer. */
    method SetLast(s: string, b: array<char>)
      requires Valid() && rowSize.Length == rowChars.Length == numrows + 1 && b !in Buffers()
      requires b.Length == |s| + 1 && b[..|s|] == s && b[|s|] == NUL
      modifies this`rows, this`numrows, this`dirty, rowSize, rowChars
      ensures Valid() && Buffers() <= old(Buffers()) + {b}
      ensures State() == Editor.AppendRow(old(State()), s)
    {
      ghost var rows0 := rows;
      rowSize[numrows] := |s|;
      rowChars[numrows] := b;
      rows := rows + [s];
      numrows := numrows + 1;
      dirty := true;
      forall i | 0 <= i < numrows - 1
        ensures HoldsRow(i, rows[i])
      {
        assert old(HoldsRow(i, rows[i])) && rows[i] == rows0[i];
      }
    }

    /** A new buffer takes the place of the row's old one. */
    method SetRow(i: int, row: string)
      requires Valid() && 0 <= i < numrows
      modifies this`rows, this`dirty, rowSize, rowChars
      ensures Valid() && fresh(Repr() - old(Repr()))
      ensures State() == old(State()).(rows := old(rows)[i := row], dirty := true)
      ensures forall j :: 0 <= j < numrows && j != i ==> rowChars[j] == old(rowChars[j])
      ensures fresh(rowChars[i])
    {
      var b := NewBuffer(row);
      rowChars[i] := b;
      rowSize[i] := |row|;
      rows := rows[i := row];
      dirty := true;
    }

    method RowInsertChar(pos: int, c: char)
      requires Valid()
      modifies this`rows, this`dirty, rowSize, rowChars
      ensures Valid() && fresh(Repr() - old(Repr()))
      ensures State() == Editor.RowInsertChar(old(State()), pos, c)
    {
      if cy < 0 || cy >= numrows {
        return;
      }
      var k := if pos < 0 || pos > rowSize[cy] then rowSize[cy] else pos;
      var size := rowSize[cy];
      var old_ := rowChars[cy];
      assert HoldsRow(cy, rows[cy]);
      ghost var row := rows[cy];
      var s := old_[..k] + [c] + old_[k..size];
      assert old_[..k] == row[..k] && old_[k..size] == row[k..];
      SetRow(cy, s);
    }

    /** memmove within the buffer, the NUL included. */
    method RowDelChar(pos: int)
      requires Valid()
      modifies this`rows, this`dirty, rowSize, Buffers()
      ensures Valid() && State() == Editor.RowDelChar(old(State()), pos)
    {
      if cy < 0 || cy >= numrows {
        return;
      }
      assert HoldsRow(cy, rows[cy]);
      if pos < 0 || pos >= rowSize[cy] {
        return;
      }
      ghost var row := rows[cy];
      var b := rowChars[cy];
      var size := rowSize[cy];
      ShiftLeft(b, pos, size);
      rowSize[cy] := size - 1;
      rows := rows[cy := row[..pos] + row[pos + 1..]];
      dirty := true;
      assert b[..size - 1] == row[..pos] + row[pos + 1..];
    }

    method InsertChar(c: char)
      requires Valid()
      modifies this, rowSize, rowChars
      ensures Valid() && fresh(Repr() - old(Repr()))
      ensures State() == Editor.InsertChar(old(State()), c)
    {
      hide Editor.RowInsertChar, TextEditor.HoldsRow;
      if cy == numrows {
        AppendRow("");
      }
      RowInsertChar(cx, c);
      Place(cx + 1, cy);
    }

    /** The rows from the one below the cursor on move down by one place. */
    method ShiftDown()
      requires Valid() && 0 <= cy < numrows && rowSize.Length == rowChars.Length == numrows + 1
      modifies rowSize, rowChars
      ensures forall i :: 0 <= i <= cy ==> rowSize[i] == old(rowSize[i]) && rowChars[i] == old(rowChars[i])
      ensures forall i :: cy + 1 < i <= numrows ==>
                rowSize[i] == old(rowSize[i - 1]) && rowChars[i] == old(rowChars[i - 1])
      ensures rowChars[cy + 1] == old(rowChars[cy + 1])
    {
      var i := numrows;
      while i > cy + 1
        invariant cy + 1 <= i <= numrows
        invariant forall j :: 0 <= j < i ==> rowSize[j] == old(rowSize[j]) && rowChars[j] == old(rowChars[j])
        invariant forall j :: i < j <= numrows ==>
                    rowSize[j] == old(rowSize[j - 1]) && rowChars[j] == old(rowChars[j - 1])
        invariant i == numrows ==> rowChars[i] == old(rowChars[i])
        invariant i < numrows ==> rowChars[i] == old(rowChars[i])
      {
        rowSize[i] := rowSize[i - 1];
        rowChars[i] := rowChars[i - 1];
        i := i - 1;
      }
    }

    /** Every row has its buffer, the rows below the cursor's one place further
        down than before. */
    ghost predicate HasGap()
      reads this, rowSize, rowChars, Buffers()
    {
      && |rows| == numrows && 0 <= cy < numrows && rowSize.Length == rowChars.Length == numrows + 1
      && (forall i :: 0 <= i <= cy ==> HoldsRow(i, rows[i]))
      && (forall i :: cy < i < numrows ==> HoldsRow(i + 1, rows[i]))
      && (forall i, j :: 0 <= i < j <= numrows && i != cy + 1 && j != cy + 1 ==> rowChars[i] != rowChars[j])
    }

    method OpenGap()
      requires Valid() && 0 <= cy < numrows
      modifies this`rowSize, this`rowChars
      ensures HasGap() && fresh(rowSize) && fresh(rowChars) && |rows| == numrows
      ensures Buffers() <= old(Buffers())
    {
      hide TextEditor.HoldsRow, TextEditor.HasGap;
      GrowRows();
      MakeGap();
    }

    method MakeGap()
      requires Valid() && 0 <= cy < numrows && rowSize.Length == rowChars.Length == numrows + 1
      modifies rowSize, rowChars
      ensures HasGap() && |rows| == numrows && Buffers() <= old(Buffers())
    {
      ShiftDown();
      forall i | 0 <= i <= numrows
        ensures rowChars[i] == null || rowChars[i] in old(Buffers())
      {
        assert i > cy + 1 ==> rowChars[i] == old(rowChars[i - 1]);
      }
      forall i | cy < i < numrows
        ensures HoldsRow(i + 1, rows[i])
      {
        assert old(HoldsRow(i, rows[i]));
      }
    }

    /** The gap takes the new row; the cursor's row is cut in place. */
    method FillGap(tail: array<char>, head: string, rest: string)
      requires HasGap() && head + rest == rows[cy]
      requires tail.Length == |rest| + 1 && tail[..|rest|] == rest && tail[|rest|] == NUL
      requires tail !in Buffers()
      modifies this`rows, this`numrows, rowSize, rowChars, rowChars[cy]
      ensures Valid() && numrows == old(numrows) + 1
      ensures rows == old(rows)[..cy] + [head, rest] + old(rows)[cy + 1..]
      ensures Buffers() <= old(Buffers()) + {tail}
    {
      ghost var rows0 := rows;
      var b := rowChars[cy];
      assert HoldsRow(cy, rows[cy]);
      assert b[..|head|] == head;
      rowSize[cy + 1], rowChars[cy + 1] := |rest|, tail;
      rowSize[cy] := |head|;
      b[|head|] := NUL;
      rows := rows0[..cy] + [head, rest] + rows0[cy + 1..];
      numrows := numrows + 1;
      forall i | 0 <= i < numrows
        ensures HoldsRow(i, rows[i])
      {
        if i < cy || i > cy + 1 {
          assert rowChars[i] in old(Buffers()) && rowChars[i] != b;
          var k := if i < cy then i else i - 1;
          assert rows[i] == rows0[k];
          assert old(HoldsRow(i, rows[k]));
        }
      }
    }

    method InsertNewline()
      requires Valid() && CursorOk(State())
      modifies this, rowSize, rowChars, Buffers()
      ensures Valid() && fresh(Repr() - old(Repr()))
      ensures State() == Editor.InsertNewline(old(State()))
    {
      hide TextEditor.HoldsRow, TextEditor.HasGap;
      if cy >= numrows {
        AppendRow("");
        StartOfNextRow();
        return;
      }
      OpenGap();
      SplitRow();
      StartOfNextRow();
    }

    method StartOfNextRow()
      requires Valid()
      modifies this`cx, this`cy, this`dirty
      ensures Valid() && State() == old(State()).(cy := old(cy) + 1, cx := 0, dirty := true) && Repr() == old(Repr())
    {
      cy, cx, dirty := cy + 1, 0, true;
    }

    method SplitRow()
      requires HasGap() && |rows| == numrows && 0 <= cy < numrows && 0 <= cx <= |rows[cy]|
      modifies this`rows, this`numrows, rowSize, rowChars, Buffers()
      ensures Valid() && numrows == old(numrows) + 1
      ensures rows == old(rows)[..cy] + [old(rows)[cy][..cx], old(rows)[cy][cx..]] + old(rows)[cy + 1..]
      ensures fresh(Buffers() - old(Buffers()))
    {
      assert HoldsRow(cy, rows[cy]);
      var b, size := rowChars[cy], rowSize[cy];
      assert b[..size] == rows[cy];
      var head, rest := b[..cx], b[cx..size];
      assert head == rows[cy][..cx] && rest == rows[cy][cx..];
      var tail := NewBuffer(rest);
      FillGap(tail, head, rest);
    }

    /** Backspace. */
    method DelChar()
      requires Valid() && CursorOk(State())
      modifies this, rowSize, rowChars, Buffers()
      ensures Valid() && fresh(Repr() - old(Repr()))
      ensures State() == Editor.DelChar(old(State()))
    {
      if cy >= numrows {
        return;
      }
      if cx == 0 && cy == 0 {
        return;
      }
      if cx > 0 {
        RowDelChar(cx - 1);
        cx := cx - 1;
      } else {
        JoinRows();
      }
    }

    /** The cursor's row goes to the end of the one above. */
    method JoinRows()
      requires Valid() && 0 < cy < numrows && cx == 0
      modifies this, rowSize, rowChars
      ensures Valid() && fresh(Repr() - old(Repr()))
      ensures State() == Editor.DelChar(old(State()))
    {
      hide TextEditor.HoldsRow;
      ghost var rows0 := rows;
      var prevLen, combined := CombinedRow();
      Place(prevLen, cy);
      SetRow(cy - 1, combined);
      CloseGap();
      Place(cx, cy - 1);
      assert rows == rows0[..cy] + [combined] + rows0[cy + 2..];
    }

    method CombinedRow() returns (prevLen: int, combined: string)
      requires Valid() && 0 < cy < numrows
      ensures Valid() && prevLen == |rows[cy - 1]| && combined == rows[cy - 1] + rows[cy]
    {
      assert HoldsRow(cy - 1, rows[cy - 1]) && HoldsRow(cy, rows[cy]);
      prevLen := rowSize[cy - 1];
      combined := rowChars[cy - 1][..prevLen] + rowChars[cy][..rowSize[cy]];
    }

    /** The rows below the cursor's move up over it. */
    method CloseGap()
      requires Valid() && 0 <= cy < numrows
      modifies this`rows, this`numrows, rowSize, rowChars
      ensures Valid() && rows == old(rows)[..cy] + old(rows)[cy + 1..] && numrows == old(numrows) - 1
      ensures Repr() <= old(Repr())
    {
      ghost var rows0 := rows;
      var i := cy;
      while i < numrows - 1
        invariant cy <= i <= numrows - 1
        invariant forall j :: 0 <= j < cy ==> rowSize[j] == old(rowSize[j]) && rowChars[j] == old(rowChars[j])
        invariant forall j :: cy <= j < i ==> rowSize[j] == old(rowSize[j + 1]) && rowChars[j] == old(rowChars[j + 1])
        invariant forall j :: i <= j < rowSize.Length ==> rowSize[j] == old(rowSize[j])
        invariant forall j :: i <= j < rowChars.Length ==> rowChars[j] == old(rowChars[j])
        modifies rowSize, rowChars
      {
        rowSize[i] := rowSize[i + 1];
        rowChars[i] := rowChars[i + 1];
        i := i + 1;
      }
      rows := rows0[..cy] + rows0[cy + 1..];
      numrows := numrows - 1;
      forall j | 0 <= j < numrows
        ensures HoldsRow(j, rows[j])
      {
        assert old(HoldsRow(if j < cy then j else j + 1, rows[if j < cy then j else j + 1]));
      }
    }

    method ScrollRows()
      requires Valid()
      modifies this`rowoff
      ensures Valid() && State() == old(State()).(rowoff := Editor.Scroll(old(State())).rowoff) && Repr() == old(Repr())
    {
      if cy < rowoff {
        rowoff := cy;
      }
      if cy >= rowoff + screenrows {
        rowoff := cy - screenrows + 1;
      }
    }

    method ScrollColumns()
      requires Valid()
      modifies this`coloff
      ensures Valid() && State() == old(State()).(coloff := Editor.Scroll(old(State())).coloff) && Repr() == old(Repr())
    {
      if cx < coloff {
        coloff := cx;
      }
      if cx >= coloff + screencols {
        coloff := cx - screencols + 1;
      }
    }

    method ScrollToCursor()
      requires Valid()
      modifies this`rowoff, this`coloff
      ensures Valid() && State() == Editor.Scroll(old(State())) && Repr() == old(Repr())
    {
      ScrollRows();
      ScrollColumns();
    }

    method LengthAtCursor() returns (n: int)
      requires Valid()
      ensures Valid() && n == RowLength(State())
    {
      n := 0;
      if 0 <= cy < numrows {
        assert HoldsRow(cy, rows[cy]);
        n := rowSize[cy];
      }
    }

    method MoveSideways(key: Key)
      requires Valid() && CursorOk(State()) && (key.ArrowLeft? || key.ArrowRight? || key.Home? || key.EndKey?)
      modifies this`cx, this`cy
      ensures Valid() && State() == Editor.MoveFreely(old(State()), key) && Repr() == old(Repr())
    {
      hide TextEditor.Valid;
      var rowlen := LengthAtCursor();
      var onText := OnText();
      if key == ArrowLeft {
        if cx != 0 {
          Place(cx - 1, cy);
        } else if cy > 0 {
          Place(cx, cy - 1);
          var above := LengthAtCursor();
          Place(above, cy);
        }
      } else if key == ArrowRight {
        if cx < rowlen {
          Place(cx + 1, cy);
        } else if onText {
          Place(0, cy + 1);
        }
      } else if key == Home {
        Place(0, cy);
      } else if onText {
        Place(rowlen, cy);
      }
    }

    method MoveFreely(key: Key)
      requires Valid() && CursorOk(State())
      modifies this`cx, this`cy
      ensures Valid() && State() == Editor.MoveFreely(old(State()), key) && Repr() == old(Repr())
    {
      hide TextEditor.Valid;
      match key {
        case ArrowUp =>
          if cy != 0 {
            Place(cx, cy - 1);
          }
        case ArrowDown =>
          var onText := OnText();
          if onText {
            Place(cx, cy + 1);
          }
        case PageUp => Place(cx, rowoff);
        case PageDown => PageForward();
        case ArrowLeft => MoveSideways(key);
        case ArrowRight => MoveSideways(key);
        case Home => MoveSideways(key);
        case EndKey => MoveSideways(key);
        case _ =>
      }
    }

    method OnText() returns (b: bool)
      requires Valid()
      ensures Valid() && (b <==> cy < |rows|)
    {
      b := cy < numrows;
    }

    method PageForward()
      requires Valid() && CursorOk(State())
      modifies this`cx, this`cy
      ensures Valid() && State() == Editor.MoveFreely(old(State()), PageDown) && Repr() == old(Repr())
    {
      Place(cx, rowoff + screenrows - 1);
      if cy > numrows {
        Place(cx, numrows);
      }
    }

    method MoveCursor(key: Key)
      requires Valid() && CursorOk(State())
      modifies this`cx, this`cy
      ensures Valid() && State() == Editor.MoveCursor(old(State()), key) && Repr() == old(Repr())
    {
      hide Editor.MoveFreely;
      MoveFreely(key);
      var rowlen := LengthAtCursor();
      if cx > rowlen {
        Place(rowlen, cy);
      }
    }

    method ProcessKeypress(key: Key)
      requires Valid() && CursorOk(State())
      modifies this, rowSize, rowChars, Buffers()
      ensures Valid() && fresh(Repr() - old(Repr()))
      ensures State() == Editor.Keypress(old(State()), key)
    {
      hide TextEditor.Valid, Editor.MoveCursor, Editor.DelChar, Editor.InsertChar, Editor.InsertNewline;
      match key {
        case Enter => InsertNewline();
        case Backspace => DelChar();
        case Delete =>
          RightStays(State());
          MoveCursor(ArrowRight);
          DelChar();
        case Char(c) =>
          if IsPrintable(c) {
            InsertChar(c);
          }
        case Other =>
        case _ => MoveCursor(key);
      }
    }

    /** The main loop over the keys that are typed. */
    method EditKeys(keys: seq<Key>)
      requires Valid() && Editor.Valid(State())
      modifies this, rowSize, rowChars, Buffers()
      ensures Valid() && fresh(Repr() - old(Repr()))
      ensures State() == Run(old(State()), keys)
    {
      hide TextEditor.Valid, Editor.Keypress, Editor.Scroll;
      var i := 0;
      while i < |keys|
        invariant 0 <= i <= |keys| && Valid() && fresh(Repr() - old(Repr())) && Editor.Valid(State())
        invariant Run(State(), keys[i..]) == Run(old(State()), keys)
        modifies Repr()
      {
        ScrollShowsCursor(State());
        KeypressValid(Editor.Scroll(State()), keys[i]);
        assert keys[i..][1..] == keys[i + 1..];
        ScrollToCursor();
        ProcessKeypress(keys[i]);
        i := i + 1;
      }
      assert keys[i..] == [];
      ScrollToCursor();
    }

    /** One round of editor_open's loop: the bytes of one read. */
    method LoadChunk(buf: string)
      requires Valid()
      modifies this, rowSize, rowChars, Buffers()
      ensures Valid() && fresh(Repr() - old(Repr()))
      ensures rows == old(rows) + ChunkRows(buf)
    {
      hide TextEditor.HoldsRow, Lines, Tail;
      ghost var rows0 := rows;
      var lineStart, i := 0, 0;
      assert buf[..0] == "";
      NoLines();
      while i < |buf|
        invariant 0 <= lineStart <= i <= |buf|
        invariant Valid() && fresh(Repr() - old(Repr()))
        invariant rows == rows0 + Lines(buf[..i]) && buf[lineStart..i] == Tail(buf[..i])
        modifies Repr()
      {
        LinesStep(buf, i);
        if buf[i] == NEWLINE {
          AppendRow(buf[lineStart..i]);
          lineStart := i + 1;
        }
        i := i + 1;
      }
      assert buf[..i] == buf;
      if lineStart < |buf| {
        AppendRow(buf[lineStart..]);
      }
    }

    /** editor_open after the file is there: chunk by chunk. */
    method Load(chunks: seq<string>)
      requires Valid()
      modifies this, rowSize, rowChars, Buffers()
      ensures Valid() && fresh(Repr() - old(Repr()))
      ensures rows == old(rows) + Loaded(chunks) && !dirty
    {
      hide TextEditor.HoldsRow, ChunkRows;
      ghost var rows0 := rows;
      var i := 0;
      while i < |chunks|
        invariant 0 <= i <= |chunks|
        invariant Valid() && fresh(Repr() - old(Repr())) && rows == rows0 + Loaded(chunks[..i])
        modifies Repr()
      {
        assert chunks[..i + 1][..i] == chunks[..i];
        LoadChunk(chunks[i]);
        i := i + 1;
      }
      assert chunks[..i] == chunks;
      MarkSaved();
    }

    method MarkSaved()
      requires Valid()
      modifies this`dirty
      ensures Valid() && State() == old(State()).(dirty := false) && Repr() == old(Repr())
    {
      dirty := false;
    }

    /** editor_save: the bytes written and their number. */
    method Save() returns (out: string, len: int)
      requires Valid()
      modifies this`dirty
      ensures Valid() && State() == old(State()).(dirty := false)
      ensures out == Text(rows) && len == |out|
    {
      out, len := "", 0;
      var i := 0;
      assert rows[..0] == [];
      while i < numrows
        invariant 0 <= i <= numrows
        invariant out == Text(rows[..i]) && len == |out|
      {
        assert HoldsRow(i, rows[i]);
        assert rows[..i + 1][..i] == rows[..i] && rows[..i + 1][i] == rows[i];
        out := out + rowChars[i][..rowSize[i]] + [NEWLINE];
        len := len + rowSize[i] + 1;
        i := i + 1;
      }
      assert rows[..i] == rows;
      MarkSaved();
    }
  }

  lemma RightStays(d: Doc)
    requires CursorOk(d)
    ensures CursorOk(Editor.MoveCursor(d, ArrowRight))
  {
  }

  /** Moves b[k + 1..n] and the byte after it one place down. */
  method ShiftLeft(b: array<char>, k: int, n: int)
    requires 0 <= k < n < b.Length
    modifies b
    ensures b[..k] == old(b[..k]) && b[k..n] == old(b[k + 1..n + 1])
  {
    var i := k;
    while i < n
      invariant k <= i <= n
      invariant b[..k] == old(b[..k])
      invariant forall j :: k <= j < i ==> b[j] == old(b[j + 1])
      invariant forall j :: i <= j < b.Length ==> b[j] == old(b[j])
    {
      b[i] := b[i + 1];
      i := i + 1;
    }
  }

  /** A buffer with a row and the NUL after it. */
  method NewBuffer(row: string) returns (b: array<char>)
    ensures fresh(b) && b.Length == |row| + 1 && b[..|row|] == row && b[|row|] == NUL
  {
    b := new char[|row| + 1];
    var i := 0;
    while i < |row|
      invariant 0 <= i <= |row| && b[..i] == row[..i]
    {
      b[i] := row[i];
      i := i + 1;
    }
    b[|row|] := NUL;
  }
}
