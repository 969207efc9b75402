/** The text editor's rows and cursor as values, and what they mean as one flat
    text with a cursor offset. */
module Editor {
  datatype Key =
    | ArrowLeft | ArrowRight | ArrowUp | ArrowDown | Home | EndKey | PageUp | PageDown
    | Delete | Backspace | Enter | Char(c: char) | Other

  /** The globals e_numrows with the row arrays, e_cx, e_cy, e_rowoff, e_coloff,
      e_screenrows, e_screencols and e_dirty. */
  datatype Doc = Doc(
    rows: seq<string>, cx: int, cy: int, rowoff: int, coloff: int, screenrows: int, screencols: int, dirty: bool)

  const NEWLINE := '\n'

  function RowLength(d: Doc): int {
    if 0 <= d.cy < |d.rows| then |d.rows[d.cy]| else 0
  }

  /** The cursor is on a row, or on the virtual row below the last one. */
  predicate CursorOk(d: Doc) {
    0 <= d.cy <= |d.rows| && 0 <= d.cx <= RowLength(d)
  }

  predicate NoNewlines(rows: seq<string>) {
    forall i :: 0 <= i < |rows| ==> NEWLINE !in rows[i]
  }

  predicate Valid(d: Doc) {
    CursorOk(d) && NoNewlines(d.rows) && d.rowoff >= 0 && d.coloff >= 0 && d.screenrows >= 1 && d.screencols >= 1
  }

  predicate OnRow(d: Doc) { d.cy < |d.rows| }

  // ----- The operations -----

  function AppendRow(d: Doc, s: string): Doc {
    d.(rows := d.rows + [s], dirty := true)
  }

  function RowInsertChar(d: Doc, at: int, c: char): Doc {
    if !(0 <= d.cy < |d.rows|) then d
    else
      var row := d.rows[d.cy];
      var k := if 0 <= at <= |row| then at else |row|;
      d.(rows := d.rows[d.cy := row[..k] + [c] + row[k..]], dirty := true)
  }

  function RowDelChar(d: Doc, at: int): Doc {
    if !(0 <= d.cy < |d.rows|) || !(0 <= at < |d.rows[d.cy]|) then d
    else
      var row := d.rows[d.cy];
      d.(rows := d.rows[d.cy := row[..at] + row[at + 1..]], dirty := true)
  }

  function InsertChar(d: Doc, c: char): Doc {
    var d1 := if d.cy == |d.rows| then AppendRow(d, "") else d;
    var d2 := RowInsertChar(d1, d1.cx, c);
    d2.(cx := d2.cx + 1)
  }

  function InsertNewline(d: Doc): Doc
    requires CursorOk(d)
  {
    if d.cy >= |d.rows| then AppendRow(d, "").(cy := d.cy + 1, cx := 0)
    else
      var row := d.rows[d.cy];
      d.(rows := d.rows[..d.cy] + [row[..d.cx], row[d.cx..]] + d.rows[d.cy + 1..], cy := d.cy + 1, cx := 0,
         dirty := true)
  }

  function DelChar(d: Doc): Doc
    requires CursorOk(d)
  {
    if d.cy >= |d.rows| || (d.cx == 0 && d.cy == 0) then d
    else if d.cx > 0 then
      var d1 := RowDelChar(d, d.cx - 1);
      d1.(cx := d1.cx - 1)
    else
      var above, row := d.rows[d.cy - 1], d.rows[d.cy];
      d.(rows := d.rows[..d.cy - 1] + [above + row] + d.rows[d.cy + 1..], cx := |above|, cy := d.cy - 1, dirty := true)
  }

  function ClampToRow(d: Doc): Doc {
    if d.cx > RowLength(d) then d.(cx := RowLength(d)) else d
  }

  /** The movement of a key, before the cursor is put back into its row. */
  function MoveFreely(d: Doc, key: Key): Doc
    requires CursorOk(d)
  {
    match key
    case ArrowLeft =>
      if d.cx != 0 then d.(cx := d.cx - 1)
      else if d.cy > 0 then d.(cy := d.cy - 1, cx := |d.rows[d.cy - 1]|)
      else d
    case ArrowRight =>
      if d.cx < RowLength(d) then d.(cx := d.cx + 1)
      else if d.cy < |d.rows| then d.(cy := d.cy + 1, cx := 0)
      else d
    case ArrowUp => if d.cy != 0 then d.(cy := d.cy - 1) else d
    case ArrowDown => if d.cy < |d.rows| then d.(cy := d.cy + 1) else d
    case Home => d.(cx := 0)
    case EndKey => if d.cy < |d.rows| then d.(cx := |d.rows[d.cy]|) else d
    case PageUp => d.(cy := d.rowoff)
    case PageDown =>
      var y := d.rowoff + d.screenrows - 1;
      d.(cy := if y > |d.rows| then |d.rows| else y)
    case _ => d
  }

  function MoveCursor(d: Doc, key: Key): Doc
    requires CursorOk(d)
  {
    ClampToRow(MoveFreely(d, key))
  }

  function Scroll(d: Doc): Doc {
    var r0 := if d.cy < d.rowoff then d.cy else d.rowoff;
    var r := if d.cy >= r0 + d.screenrows then d.cy - d.screenrows + 1 else r0;
    var c0 := if d.cx < d.coloff then d.cx else d.coloff;
    var c := if d.cx >= c0 + d.screencols then d.cx - d.screencols + 1 else c0;
    d.(rowoff := r, coloff := c)
  }

  predicate IsPrintable(c: char) { 32 <= c as int < 127 }

  /** One key, without saving and quitting. */
  function Keypress(d: Doc, key: Key): Doc
    requires CursorOk(d)
  {
    match key
    case Enter => InsertNewline(d)
    case Backspace => DelChar(d)
    case Delete =>
      var d1 := MoveCursor(d, ArrowRight);
      if CursorOk(d1) then DelChar(d1) else d1
    case Char(c) => if IsPrintable(c) then InsertChar(d, c) else d
    case Other => d
    case _ => MoveCursor(d, key)
  }

  /** The main loop: the screen is refreshed, and so scrolled, before each key. */
  function Run(d: Doc, keys: seq<Key>): Doc
    requires Valid(d)
    ensures Valid(Run(d, keys))
    decreases keys
  {
    ScrollShowsCursor(d);
    if keys == [] then Scroll(d)
    else
      KeypressValid(Scroll(d), keys[0]);
      Run(Keypress(Scroll(d), keys[0]), keys[1..])
  }

  // ----- The window -----

  predicate CursorInWindow(d: Doc) {
    d.rowoff <= d.cy < d.rowoff + d.screenrows && d.coloff <= d.cx < d.coloff + d.screencols
  }

  /** Scrolling moves the window by the least amount that shows the cursor. */
  lemma ScrollShowsCursor(d: Doc)
    requires Valid(d)
    ensures Valid(Scroll(d)) && CursorInWindow(Scroll(d))
    ensures Scroll(d) == d.(rowoff := Scroll(d).rowoff, coloff := Scroll(d).coloff)
    ensures CursorInWindow(d) ==> Scroll(d) == d
    ensures forall r :: r <= d.cy < r + d.screenrows ==> Distance(Scroll(d).rowoff, d.rowoff) <= Distance(r, d.rowoff)
    ensures forall c :: c <= d.cx < c + d.screencols ==> Distance(Scroll(d).coloff, d.coloff) <= Distance(c, d.coloff)
  {
  }

  function Distance(a: int, b: int): int { if a < b then b - a else a - b }

  /** Two lines of the window are used for the bars: the cursor's row is hidden
      behind them exactly when there are no other lines or the cursor was at or
      below the first of the two. */
  lemma CursorBehindBars(d: Doc)
    requires Valid(d)
    ensures Scroll(d).cy - Scroll(d).rowoff >= Scroll(d).screenrows - 2
            <==> d.screenrows <= 2 || d.cy >= d.rowoff + d.screenrows - 2
  {
  }

  // ----- What every key keeps -----

  lemma RowReplaced(rows: seq<string>, y: nat, row: string)
    requires NoNewlines(rows) && y < |rows| && NEWLINE !in row
    ensures NoNewlines(rows[y := row])
  {
  }

  lemma InsertCharValid(d: Doc, c: char)
    requires Valid(d) && IsPrintable(c)
    ensures Valid(InsertChar(d, c))
  {
    hide NoNewlines;
    var d1 := if d.cy == |d.rows| then AppendRow(d, "") else d;
    EmptyRowAdded(d.rows);
    var row := d1.rows[d1.cy];
    RowHasNone(d1.rows, d1.cy);
    assert NEWLINE !in row[..d1.cx] + [c] + row[d1.cx..];
    RowReplaced(d1.rows, d1.cy, row[..d1.cx] + [c] + row[d1.cx..]);
  }

  lemma EmptyRowAdded(rows: seq<string>)
    requires NoNewlines(rows)
    ensures NoNewlines(rows + [""])
  {
  }

  lemma RowHasNone(rows: seq<string>, y: nat)
    requires NoNewlines(rows) && y < |rows|
    ensures NEWLINE !in rows[y]
  {
  }

  lemma InsertNewlineValid(d: Doc)
    requires Valid(d)
    ensures Valid(InsertNewline(d))
  {
    if OnRow(d) {
      var row := d.rows[d.cy];
      RowHasNone(d.rows, d.cy);
      assert NEWLINE !in row[..d.cx] && NEWLINE !in row[d.cx..];
      RowsJoined(d.rows[..d.cy], [row[..d.cx], row[d.cx..]], d.rows[d.cy + 1..]);
    } else {
      EmptyRowAdded(d.rows);
    }
  }

  lemma RowsJoined(a: seq<string>, b: seq<string>, c: seq<string>)
    requires NoNewlines(a) && NoNewlines(b) && NoNewlines(c)
    ensures NoNewlines(a + b + c)
  {
  }

  lemma DelCharValid(d: Doc)
    requires Valid(d)
    ensures Valid(DelChar(d))
  {
    if OnRow(d) && d.cx > 0 {
      var row := d.rows[d.cy];
      RowHasNone(d.rows, d.cy);
      assert NEWLINE !in row[..d.cx - 1] + row[d.cx..];
      RowReplaced(d.rows, d.cy, row[..d.cx - 1] + row[d.cx..]);
    } else if OnRow(d) && d.cy > 0 {
      RowHasNone(d.rows, d.cy);
      RowHasNone(d.rows, d.cy - 1);
      assert NEWLINE !in d.rows[d.cy - 1] + d.rows[d.cy];
      RowsJoined(d.rows[..d.cy - 1], [d.rows[d.cy - 1] + d.rows[d.cy]], d.rows[d.cy + 1..]);
    }
  }

  lemma MoveValid(d: Doc, key: Key)
    requires Valid(d) && d.rowoff <= d.cy
    ensures Valid(MoveCursor(d, key))
  {
    hide NoNewlines;
  }

  lemma KeypressValid(d: Doc, key: Key)
    requires Valid(d) && d.rowoff <= d.cy
    ensures Valid(Keypress(d, key))
  {
    hide CursorOk, NoNewlines, InsertChar, InsertNewline, DelChar, MoveCursor;
    match key
    case Enter => InsertNewlineValid(d);
    case Backspace => DelCharValid(d);
    case Delete =>
      MoveValid(d, ArrowRight);
      DelCharValid(MoveCursor(d, ArrowRight));
    case Char(c) =>
      if IsPrintable(c) {
        InsertCharValid(d, c);
      }
    case Other =>
    case _ => MoveValid(d, key);
  }

  /** After any sequence of keys the cursor is in its row and in the window, and
      no row holds a newline. */
  lemma {:induction false} RunKeepsInvariant(d: Doc, keys: seq<Key>)
    requires Valid(d)
    ensures Valid(Run(d, keys)) && CursorInWindow(Run(d, keys))
    decreases keys
  {
    ScrollShowsCursor(d);
    if keys != [] {
      KeypressValid(Scroll(d), keys[0]);
      RunKeepsInvariant(Keypress(Scroll(d), keys[0]), keys[1..]);
    }
  }

  // ----- The flat text -----

  /** What editor_save writes. */
  function Text(rows: seq<string>): string {
    if rows == [] then "" else Text(rows[..|rows| - 1]) + rows[|rows| - 1] + [NEWLINE]
  }

  /** The number of bytes before the cursor. */
  function Pos(d: Doc): nat
    requires CursorOk(d)
  {
    |Text(d.rows[..d.cy])| + d.cx
  }

  lemma {:induction false} TextAppend(a: seq<string>, b: seq<string>)
    ensures Text(a + b) == Text(a) + Text(b)
    decreases b
  {
    if b == [] {
      assert a + b == a;
    } else {
      assert (a + b)[..|a + b| - 1] == a + b[..|b| - 1];
      TextAppend(a, b[..|b| - 1]);
    }
  }

  lemma TextOne(row: string)
    ensures Text([row]) == row + [NEWLINE]
  {
    assert [row][..0] == [];
  }

  /** The text around row y. */
  lemma TextAround(rows: seq<string>, y: nat)
    requires y < |rows|
    ensures Text(rows) == Text(rows[..y]) + rows[y] + ([NEWLINE] + Text(rows[y + 1..]))
  {
    hide Text;
    assert rows == rows[..y] + ([rows[y]] + rows[y + 1..]);
    TextAppend(rows[..y], [rows[y]] + rows[y + 1..]);
    TextAppend([rows[y]], rows[y + 1..]);
    TextOne(rows[y]);
    Regroup(Text(rows[..y]), rows[y], Text(rows[y + 1..]));
  }

  lemma Regroup(a: string, r: string, b: string)
    ensures a + ((r + [NEWLINE]) + b) == a + r + ([NEWLINE] + b)
  {
  }

  /** The text of rows in which one row was put in another's place. */
  lemma TextReplaced(rows: seq<string>, y: nat, row: string)
    requires y < |rows|
    ensures Text(rows[y := row]) == Text(rows[..y]) + row + ([NEWLINE] + Text(rows[y + 1..]))
  {
    var rows' := rows[y := row];
    TextAround(rows', y);
    assert rows'[..y] == rows[..y] && rows'[y + 1..] == rows[y + 1..];
  }

  lemma {:induction false} TextBefore(rows: seq<string>, y: nat)
    requires y <= |rows|
    ensures |Text(rows[..y])| <= |Text(rows)|
    ensures y < |rows| ==> |Text(rows[..y])| + |rows[y]| + 1 <= |Text(rows)|
  {
    if y < |rows| {
      TextAround(rows, y);
    } else {
      assert rows[..y] == rows;
    }
  }

  function Inserted(s: string, at: nat, c: char): string
    requires at <= |s|
  {
    s[..at] + [c] + s[at..]
  }

  function Removed(s: string, at: nat): string
    requires at < |s|
  {
    s[..at] + s[at + 1..]
  }

  /** A printable key inserts its character at the cursor.  On the virtual row
      it also starts a row. */
  lemma InsertCharText(d: Doc, c: char)
    requires CursorOk(d)
    ensures CursorOk(InsertChar(d, c)) && Pos(InsertChar(d, c)) == Pos(d) + 1 && Pos(d) <= |Text(d.rows)|
    ensures Text(InsertChar(d, c).rows)
            == if OnRow(d) then Inserted(Text(d.rows), Pos(d), c) else Text(d.rows) + [c, NEWLINE]
  {
    hide Text, Inserted;
    var d' := InsertChar(d, c);
    TextBefore(d.rows, d.cy);
    if OnRow(d) {
      var row := d.rows[d.cy];
      TextAround(d.rows, d.cy);
      TextReplaced(d.rows, d.cy, row[..d.cx] + [c] + row[d.cx..]);
      assert d'.rows[..d.cy] == d.rows[..d.cy];
      InsertedInside(Text(d.rows[..d.cy]), row, [NEWLINE] + Text(d.rows[d.cy + 1..]), d.cx, c);
    } else {
      assert ""[..0] + [c] + ""[0..] == [c];
      assert d'.rows == d.rows + [[c]] && d'.rows[..d.cy] == d.rows && d.rows[..d.cy] == d.rows;
      TextAppend(d.rows, [[c]]);
      TextOne([c]);
      assert [c] + [NEWLINE] == [c, NEWLINE];
    }
  }

  lemma InsertedInside(a: string, row: string, b: string, k: nat, c: char)
    requires k <= |row|
    ensures Inserted(a + row + b, |a| + k, c) == a + (row[..k] + [c] + row[k..]) + b
  {
    var s := a + row + b;
    assert s[..|a| + k] == a + row[..k];
    assert s[|a| + k..] == row[k..] + b;
  }

  lemma RemovedInside(a: string, row: string, b: string, k: nat)
    requires k < |row|
    ensures Removed(a + row + b, |a| + k) == a + (row[..k] + row[k + 1..]) + b
  {
    var s := a + row + b;
    assert s[..|a| + k] == a + row[..k];
    assert s[|a| + k + 1..] == row[k + 1..] + b;
  }

  /** Enter inserts a newline at the cursor. */
  lemma NewlineText(d: Doc)
    requires CursorOk(d)
    ensures CursorOk(InsertNewline(d)) && Pos(InsertNewline(d)) == Pos(d) + 1 && Pos(d) <= |Text(d.rows)|
    ensures Text(InsertNewline(d).rows) == Inserted(Text(d.rows), Pos(d), NEWLINE)
  {
    hide Text, Inserted;
    var d' := InsertNewline(d);
    TextBefore(d.rows, d.cy);
    if OnRow(d) {
      SplitText(d);
    } else {
      assert d'.rows == d.rows + [""] && d'.rows[..d.cy + 1] == d'.rows && d.rows[..d.cy] == d.rows;
      TextAppend(d.rows, [""]);
      TextOne("");
      InsertedInside(Text(d.rows), "", "", 0, NEWLINE);
      assert Text(d.rows) + "" + "" == Text(d.rows) && ""[..0] + [NEWLINE] + ""[0..] == [NEWLINE] + "";
      assert Text(d.rows) + ([NEWLINE] + "") + "" == Text(d.rows) + ("" + [NEWLINE]);
    }
  }

  lemma SplitText(d: Doc)
    requires CursorOk(d) && OnRow(d)
    ensures Pos(InsertNewline(d)) == Pos(d) + 1 && Pos(d) <= |Text(d.rows)|
    ensures Text(InsertNewline(d).rows) == Inserted(Text(d.rows), Pos(d), NEWLINE)
  {
    hide Text, Inserted;
    var d' := InsertNewline(d);
    var row := d.rows[d.cy];
    var above, below := d.rows[..d.cy], d.rows[d.cy + 1..];
    TextBefore(d.rows, d.cy);
    TextAround(d.rows, d.cy);
    TextTwo(above, row[..d.cx], row[d.cx..], below);
    assert d'.rows == above + [row[..d.cx], row[d.cx..]] + below;
    assert d'.rows[..d.cy + 1] == above + [row[..d.cx]];
    assert row[..d.cx] + row[d.cx..] == row;
    InsertedInside(Text(above), row, [NEWLINE] + Text(below), d.cx, NEWLINE);
  }

  lemma TextTwo(above: seq<string>, a: string, b: string, below: seq<string>)
    ensures Text(above + [a, b] + below) == Text(above) + (a + [NEWLINE] + b) + ([NEWLINE] + Text(below))
    ensures Text(above + [a]) == Text(above) + a + [NEWLINE]
  {
    hide Text;
    assert above + [a, b] + below == (above + [a]) + ([b] + below);
    TextAppend(above + [a], [b] + below);
    TextAppend(above, [a]);
    TextAppend([b], below);
    TextOne(a);
    TextOne(b);
  }

  /** Backspace removes the byte before the cursor, if there is one and the
      cursor is on a row. */
  lemma BackspaceText(d: Doc)
    requires CursorOk(d)
    ensures CursorOk(DelChar(d)) && Pos(d) <= |Text(d.rows)|
    ensures OnRow(d) && Pos(d) > 0 ==>
              Text(DelChar(d).rows) == Removed(Text(d.rows), Pos(d) - 1) && Pos(DelChar(d)) == Pos(d) - 1
    ensures !(OnRow(d) && Pos(d) > 0) ==> DelChar(d) == d
  {
    TextBefore(d.rows, d.cy);
    if OnRow(d) && d.cx > 0 {
      BackspaceInRow(d);
    } else if OnRow(d) && d.cy > 0 {
      BackspaceJoins(d);
    } else if OnRow(d) {
      assert d.rows[..0] == [];
    }
  }

  lemma BackspaceInRow(d: Doc)
    requires CursorOk(d) && OnRow(d) && d.cx > 0
    ensures CursorOk(DelChar(d)) && Pos(d) <= |Text(d.rows)|
    ensures Text(DelChar(d).rows) == Removed(Text(d.rows), Pos(d) - 1) && Pos(DelChar(d)) == Pos(d) - 1
  {
    hide Text, Removed;
    TextBefore(d.rows, d.cy);
    var row := d.rows[d.cy];
    var k := d.cx - 1;
    TextAround(d.rows, d.cy);
    TextReplaced(d.rows, d.cy, row[..k] + row[k + 1..]);
    assert DelChar(d).rows[..d.cy] == d.rows[..d.cy];
    RemovedInside(Text(d.rows[..d.cy]), row, [NEWLINE] + Text(d.rows[d.cy + 1..]), k);
  }

  lemma BackspaceJoins(d: Doc)
    requires CursorOk(d) && OnRow(d) && d.cx == 0 && d.cy > 0
    ensures CursorOk(DelChar(d)) && Pos(d) <= |Text(d.rows)| && Pos(d) > 0
    ensures Text(DelChar(d).rows) == Removed(Text(d.rows), Pos(d) - 1) && Pos(DelChar(d)) == Pos(d) - 1
  {
    hide Text, Removed;
    var d' := DelChar(d);
    var y := d.cy - 1;
    var above, row := d.rows[y], d.rows[d.cy];
    var front, below := d.rows[..y], d.rows[d.cy + 1..];
    assert d.rows == front + [above, row] + below;
    TextTwo(front, above, row, below);
    assert d.rows[..d.cy] == front + [above] && d'.rows[..y] == front;
    TextAppend(front, [above + row] + below);
    assert d'.rows == front + ([above + row] + below);
    TextAppend([above + row], below);
    TextOne(above + row);
    Joining(Text(front), above, row, Text(below));
    assert Text(front) + above + [NEWLINE] == Text(d.rows[..d.cy]);
  }

  lemma Joining(a: string, x: string, y: string, b: string)
    ensures |a + x| < |a + (x + [NEWLINE] + y) + ([NEWLINE] + b)|
    ensures Removed(a + (x + [NEWLINE] + y) + ([NEWLINE] + b), |a + x|) == a + ((x + y + [NEWLINE]) + b)
  {
    var s := a + (x + [NEWLINE] + y) + ([NEWLINE] + b);
    assert s[..|a + x|] == a + x;
    assert s[|a + x| + 1..] == y + [NEWLINE] + b;
  }

  /** Left and Right move the cursor by one byte, within the text. */
  lemma LeftMoves(d: Doc)
    requires CursorOk(d)
    ensures Keypress(d, ArrowLeft).rows == d.rows && CursorOk(Keypress(d, ArrowLeft))
    ensures Pos(Keypress(d, ArrowLeft)) == if Pos(d) == 0 then 0 else Pos(d) - 1
  {
    if d.cx == 0 && d.cy > 0 {
      assert d.rows[..d.cy] == d.rows[..d.cy - 1] + [d.rows[d.cy - 1]];
      TextAppend(d.rows[..d.cy - 1], [d.rows[d.cy - 1]]);
      TextOne(d.rows[d.cy - 1]);
    } else if d.cx == 0 {
      assert d.rows[..0] == [];
    }
  }

  lemma RightMoves(d: Doc)
    requires CursorOk(d)
    ensures Keypress(d, ArrowRight).rows == d.rows && CursorOk(Keypress(d, ArrowRight))
    ensures Pos(d) <= |Text(d.rows)| && (Pos(d) == |Text(d.rows)| <==> !OnRow(d))
    ensures Pos(Keypress(d, ArrowRight)) == if Pos(d) == |Text(d.rows)| then Pos(d) else Pos(d) + 1
  {
    TextBefore(d.rows, d.cy);
    if d.cx == RowLength(d) && OnRow(d) {
      assert d.rows[..d.cy + 1] == d.rows[..d.cy] + [d.rows[d.cy]];
      TextAppend(d.rows[..d.cy], [d.rows[d.cy]]);
      TextOne(d.rows[d.cy]);
    } else if !OnRow(d) {
      assert d.rows[..d.cy] == d.rows;
    }
  }

  /** Del removes the byte at the cursor, but at the last newline it only moves
      on, and past it it does nothing. */
  lemma DeleteText(d: Doc)
    requires CursorOk(d)
    ensures CursorOk(Keypress(d, Delete)) && Pos(d) <= |Text(d.rows)|
    ensures
      var d' := Keypress(d, Delete);
      if Pos(d) + 1 < |Text(d.rows)| then Text(d'.rows) == Removed(Text(d.rows), Pos(d)) && Pos(d') == Pos(d)
      else Text(d'.rows) == Text(d.rows) && Pos(d') == |Text(d.rows)|
  {
    var d1 := MoveCursor(d, ArrowRight);
    RightMoves(d);
    RightMoves(d1);
    BackspaceText(d1);
  }

  /** The other movement keys leave the text alone. */
  lemma MovesKeepText(d: Doc, key: Key)
    requires CursorOk(d) && d.rowoff >= 0 && d.rowoff <= |d.rows| && d.screenrows >= 1
    ensures MoveCursor(d, key).rows == d.rows && CursorOk(MoveCursor(d, key)) && MoveCursor(d, key).dirty == d.dirty
  {
  }

  // ----- Undo -----

  datatype Insertion = Typed(c: char) | Split

  function Insert(d: Doc, x: Insertion): Doc
    requires CursorOk(d)
  {
    match x
    case Typed(c) => InsertChar(d, c)
    case Split => InsertNewline(d)
  }

  predicate SameTextAndCursor(a: Doc, b: Doc) {
    a.rows == b.rows && a.cx == b.cx && a.cy == b.cy
  }

  /** One Backspace takes one insertion back exactly. */
  lemma BackspaceUndoesOne(d: Doc, x: Insertion)
    requires CursorOk(d) && OnRow(d)
    ensures CursorOk(Insert(d, x)) && OnRow(Insert(d, x))
    ensures SameTextAndCursor(DelChar(Insert(d, x)), d)
  {
    var row := d.rows[d.cy];
    match x
    case Typed(c) =>
      var longer := row[..d.cx] + [c] + row[d.cx..];
      assert longer[..d.cx] + longer[d.cx + 1..] == row;
      assert d.rows[d.cy := longer][d.cy := row] == d.rows;
    case Split =>
      var d' := InsertNewline(d);
      assert row[..d.cx] + row[d.cx..] == row;
      assert d'.rows[..d.cy] == d.rows[..d.cy] && d'.rows[d.cy + 2..] == d.rows[d.cy + 1..];
      assert d.rows == d.rows[..d.cy] + [row] + d.rows[d.cy + 1..];
  }

  /** Every insertion adds its byte, and a character typed on the virtual row one
      more, for the row that it starts. */
  lemma InsertAdds(d: Doc, x: Insertion)
    requires CursorOk(d)
    ensures CursorOk(Insert(d, x)) && (OnRow(d) ==> OnRow(Insert(d, x)))
    ensures |Text(Insert(d, x).rows)|
            == |Text(d.rows)| + if !OnRow(d) && OnRow(Insert(d, x)) then 2 else 1
  {
    hide Text;
    match x
    case Typed(c) => InsertCharText(d, c);
    case Split => NewlineText(d);
  }

  function InsertAll(d: Doc, xs: seq<Insertion>): (r: Doc)
    requires CursorOk(d)
    ensures CursorOk(r)
    decreases xs
  {
    if xs == [] then d
    else
      InsertAdds(d, xs[0]);
      InsertAll(Insert(d, xs[0]), xs[1..])
  }

  lemma {:induction false} InsertAllAdds(d: Doc, xs: seq<Insertion>)
    requires CursorOk(d)
    ensures OnRow(d) ==> OnRow(InsertAll(d, xs))
    ensures |Text(InsertAll(d, xs).rows)|
            == |Text(d.rows)| + |xs| + if !OnRow(d) && OnRow(InsertAll(d, xs)) then 1 else 0
    decreases xs
  {
    hide Text, Insert;
    if xs != [] {
      InsertAdds(d, xs[0]);
      InsertAllAdds(Insert(d, xs[0]), xs[1..]);
    }
  }

  function BackspaceTimes(d: Doc, n: nat): Doc
    requires CursorOk(d)
    decreases n
  {
    if n == 0 then d
    else
      BackspaceText(d);
      BackspaceTimes(DelChar(d), n - 1)
  }

  lemma {:induction false} BackspacesAlike(a: Doc, b: Doc, n: nat)
    requires CursorOk(a) && CursorOk(b) && SameTextAndCursor(a, b)
    ensures SameTextAndCursor(BackspaceTimes(a, n), BackspaceTimes(b, n))
    decreases n
  {
    if n > 0 {
      BackspaceText(a);
      BackspaceText(b);
      BackspacesAlike(DelChar(a), DelChar(b), n - 1);
    }
  }

  lemma {:induction false} BackspacesAdd(d: Doc, m: nat, n: nat)
    requires CursorOk(d)
    ensures CursorOk(BackspaceTimes(d, m)) && BackspaceTimes(BackspaceTimes(d, m), n) == BackspaceTimes(d, m + n)
    decreases m
  {
    if m > 0 {
      BackspaceText(d);
      BackspacesAdd(DelChar(d), m - 1, n);
    }
  }

  lemma OneBackspace(d: Doc)
    requires CursorOk(d)
    ensures BackspaceTimes(d, 1) == DelChar(d)
  {
    hide DelChar;
    BackspaceText(d);
    assert BackspaceTimes(DelChar(d), 0) == DelChar(d);
  }

  /** As many Backspaces as insertions restore the rows and the cursor. */
  lemma {:induction false} UndoRestores(d: Doc, xs: seq<Insertion>)
    requires CursorOk(d) && OnRow(d)
    ensures SameTextAndCursor(BackspaceTimes(InsertAll(d, xs), |xs|), d)
    decreases xs
  {
    hide Insert, DelChar, BackspaceTimes;
    if xs == [] {
      NoBackspace(d);
    } else {
      BackspaceUndoesOne(d, xs[0]);
      var d1 := Insert(d, xs[0]);
      var last := InsertAll(d1, xs[1..]);
      UndoRestores(d1, xs[1..]);
      BackspacesAdd(last, |xs| - 1, 1);
      BackspacesAlike(BackspaceTimes(last, |xs| - 1), d1, 1);
      OneBackspace(d1);
    }
  }

  lemma NoBackspace(d: Doc)
    requires CursorOk(d)
    ensures BackspaceTimes(d, 0) == d
  {
  }

  /** n Backspaces take at most n bytes, and nothing on the virtual row. */
  lemma {:induction false} BackspacesTake(d: Doc, n: nat)
    requires CursorOk(d)
    ensures CursorOk(BackspaceTimes(d, n)) && |Text(BackspaceTimes(d, n).rows)| >= |Text(d.rows)| - n
    ensures !OnRow(d) ==> BackspaceTimes(d, n) == d
    decreases n
  {
    hide Text, DelChar;
    if n > 0 {
      BackspaceText(d);
      BackspacesTake(DelChar(d), n - 1);
    }
  }

  /** As many Backspaces as insertions restore the document exactly when the
      cursor was on a row; from the virtual row some text always stays. */
  lemma UndoNeedsRow(d: Doc, xs: seq<Insertion>)
    requires CursorOk(d) && xs != []
    ensures SameTextAndCursor(BackspaceTimes(InsertAll(d, xs), |xs|), d) <==> OnRow(d)
    ensures !OnRow(d) ==> |Text(BackspaceTimes(InsertAll(d, xs), |xs|).rows)| > |Text(d.rows)|
  {
    hide Text, InsertAll, BackspaceTimes;
    if OnRow(d) {
      UndoRestores(d, xs);
    } else {
      InsertAllAdds(d, xs);
      BackspacesTake(InsertAll(d, xs), |xs|);
    }
  }

  // ----- Loading and saving -----

  /** The lines of a piece of a file that end in it, and what follows them. */
  function Lines(s: string): seq<string>
    decreases |s|
  {
    if s == "" then []
    else
      var front := s[..|s| - 1];
      if s[|s| - 1] == NEWLINE then Lines(front) + [Tail(front)] else Lines(front)
  }

  function Tail(s: string): string
    decreases |s|
  {
    if s == "" || s[|s| - 1] == NEWLINE then "" else Tail(s[..|s| - 1]) + [s[|s| - 1]]
  }

  lemma NoLines()
    ensures Lines("") == [] && Tail("") == ""
  {
  }

  /** One more byte ends a line or lengthens the unfinished one. */
  lemma LinesStep(s: string, i: nat)
    requires i < |s|
    ensures
      var a, b := s[..i], s[..i + 1];
      if s[i] == NEWLINE then Lines(b) == Lines(a) + [Tail(a)] && Tail(b) == ""
      else Lines(b) == Lines(a) && Tail(b) == Tail(a) + [s[i]]
  {
    assert s[..i + 1][..i] == s[..i] && s[..i + 1][i] == s[i];
  }

  /** The rows made of one read: an unfinished line at its end is a row too. */
  function ChunkRows(s: string): seq<string> {
    Lines(s) + if Tail(s) == "" then [] else [Tail(s)]
  }

  function Loaded(chunks: seq<string>): seq<string>
    decreases chunks
  {
    if chunks == [] then [] else Loaded(chunks[..|chunks| - 1]) + ChunkRows(chunks[|chunks| - 1])
  }

  function Concat(chunks: seq<string>): string
    decreases chunks
  {
    if chunks == [] then "" else Concat(chunks[..|chunks| - 1]) + chunks[|chunks| - 1]
  }

  predicate EndsLine(s: string) { s == "" || s[|s| - 1] == NEWLINE }

  lemma {:induction false} LinesText(s: string)
    ensures Text(Lines(s)) + Tail(s) == s && (Tail(s) == "" <==> EndsLine(s))
    decreases |s|
  {
    hide Text;
    if s == "" {
      NoText();
    } else {
      var front := s[..|s| - 1];
      LinesText(front);
      if s[|s| - 1] == NEWLINE {
        TextAppend(Lines(front), [Tail(front)]);
        TextOne(Tail(front));
      }
    }
  }

  lemma ChunkText(s: string)
    ensures Text(ChunkRows(s)) == if EndsLine(s) then s else s + [NEWLINE]
  {
    hide Text, Lines, Tail;
    LinesText(s);
    if EndsLine(s) {
      assert Lines(s) + [] == Lines(s);
    } else {
      TextAppend(Lines(s), [Tail(s)]);
      TextOne(Tail(s));
    }
  }

  /** How many reads end inside a line. */
  function Cuts(chunks: seq<string>): nat
    decreases chunks
  {
    if chunks == [] then 0
    else Cuts(chunks[..|chunks| - 1]) + if EndsLine(chunks[|chunks| - 1]) then 0 else 1
  }

  lemma {:induction false} LoadedLength(chunks: seq<string>)
    ensures |Text(Loaded(chunks))| == |Concat(chunks)| + Cuts(chunks)
    ensures Cuts(chunks) == 0 ==> Text(Loaded(chunks)) == Concat(chunks)
    ensures Cuts(chunks) == 0 <==> forall i :: 0 <= i < |chunks| ==> EndsLine(chunks[i])
    decreases chunks
  {
    hide Text, ChunkRows;
    if chunks == [] {
      NoText();
    } else {
      var n := |chunks| - 1;
      LoadedLength(chunks[..n]);
      ChunkText(chunks[n]);
      TextAppend(Loaded(chunks[..n]), ChunkRows(chunks[n]));
      forall i | 0 <= i < n
        ensures chunks[..n][i] == chunks[i]
      {
      }
    }
  }

  lemma NoText()
    ensures Text([]) == ""
  {
  }

  /** Saving what was loaded gives the file back exactly when every read ended
      at the end of a line. */
  lemma SaveAfterLoad(chunks: seq<string>)
    ensures Text(Loaded(chunks)) == Concat(chunks) <==> forall i :: 0 <= i < |chunks| ==> EndsLine(chunks[i])
  {
    hide Text, Loaded, Concat, Cuts;
    LoadedLength(chunks);
  }
}
