/** The shopping-list document: the draw commands the generator issues on its
    canvas, in order, and the buffer it returns. */
module PdfGenerator {
  import Text
  import opened Aggregation

  const CART_TITLE: string := "СПИСОК ПОКУПОК"
  const EMPTY_CART_TITLE: string := "Список покупок пуст"
  const FONT_NAME: string := "DejaVuSerif"
  const FONT_SIZE: int := 14

  /** Where the titles are centred. */
  const TITLE_X: int := 315
  const TITLE_Y: int := 700
  const EMPTY_TITLE_Y: int := 425

  /** Where the first entry line starts, and the step down to the next one. */
  const LINE_X: int := 20
  const FIRST_LINE_Y: int := 635
  const LINE_STEP: int := 30

  datatype DrawCommand =
    | SetFont(font: string, size: int)
    | DrawString(x: int, y: int, text: string)
    | DrawCentredString(x: int, y: int, text: string)
    | ShowPage
    | Save

  /** The byte buffer handed back for download: what the canvas wrote into it,
      and its read position. */
  datatype PdfBuffer = PdfBuffer(commands: seq<DrawCommand>, position: nat)

  /** `f'{name.capitalize()} - {amount} ({measure});'`. */
  function EntryLine(row: CartRow): string {
    Text.Capitalize(row.name) + " - " + Text.IntToString(row.total) + " (" + row.unit + ");"
  }

  /** The height of the `i`-th entry line (0-based). */
  function LineY(i: nat): int {
    FIRST_LINE_Y - LINE_STEP * i
  }

  /** The number of entry lines (`drawString` calls) in a command sequence. */
  function CountLines(cmds: seq<DrawCommand>): nat {
    if cmds == [] then 0 else (if cmds[0].DrawString? then 1 else 0) + CountLines(cmds[1..])
  }

  /** A sequence without `drawString` calls has no entry lines. */
  lemma {:induction false} CountLinesNone(cmds: seq<DrawCommand>)
    requires forall c :: c in cmds ==> !c.DrawString?
    ensures CountLines(cmds) == 0
  {
    if cmds != [] {
      assert cmds[0] in cmds;
      assert forall c :: c in cmds[1..] ==> c in cmds;
      CountLinesNone(cmds[1..]);
    }
  }

  lemma {:induction false} CountLinesAppend(a: seq<DrawCommand>, b: seq<DrawCommand>)
    ensures CountLines(a + b) == CountLines(a) + CountLines(b)
  {
    if a != [] {
      assert (a + b)[0] == a[0] && (a + b)[1..] == a[1..] + b;
      CountLinesAppend(a[1..], b);
    } else {
      assert a + b == b;
    }
  }

  /** The first `n` entry lines follow the title: the `k`-th one at LineY(k). */
  ghost predicate EntriesDrawn(canvas: seq<DrawCommand>, rows: seq<CartRow>, n: nat)
    requires n <= |rows| && 2 + n <= |canvas|
  {
    forall k :: 0 <= k < n ==> canvas[2 + k] == DrawString(LINE_X, LineY(k), EntryLine(rows[k]))
  }

  /** One pass of the drawing loop: the next entry line is appended. */
  lemma DrawNextEntry(canvas: seq<DrawCommand>, rows: seq<CartRow>, i: nat)
    requires i < |rows| && |canvas| == 2 + i
    requires EntriesDrawn(canvas, rows, i) && CountLines(canvas) == i
    ensures var next := canvas + [DrawString(LINE_X, LineY(i), EntryLine(rows[i]))];
      && next[..|canvas|] == canvas
      && EntriesDrawn(next, rows, i + 1)
      && CountLines(next) == i + 1
  {
    var line := DrawString(LINE_X, LineY(i), EntryLine(rows[i]));
    var next := canvas + [line];
    assert next[..|canvas|] == canvas;
    CountLinesAppend(canvas, [line]);
    assert CountLines([line]) == 1 by {
      assert [line][1..] == [];
    }
  }

  /** Closing the page with `save` keeps every entry line where it was. */
  lemma SavePage(canvas: seq<DrawCommand>, rows: seq<CartRow>)
    requires |canvas| == 2 + |rows|
    requires EntriesDrawn(canvas, rows, |rows|) && CountLines(canvas) == |rows|
    ensures var done := canvas + [Save];
      && done[..|canvas|] == canvas
      && EntriesDrawn(done, rows, |rows|)
      && CountLines(done) == |rows|
  {
    var done := canvas + [Save];
    assert done[..|canvas|] == canvas;
    CountLinesAppend(canvas, [Save]);
    CountLinesNone([Save]);
  }

  /** `download_pdf_shopping_cart`: a non-empty list gives the title, then one
      line per row in order, stepping down by LINE_STEP; an empty list gives the
      empty-cart message alone on its page. Either way the buffer is rewound. */
  method DownloadPdfShoppingCart(rows: seq<CartRow>) returns (buffer: PdfBuffer)
    ensures buffer.position == 0
    ensures |buffer.commands| >= 1 && buffer.commands[0] == SetFont(FONT_NAME, FONT_SIZE)
    ensures buffer.commands[|buffer.commands| - 1] == Save
    ensures CountLines(buffer.commands) == |rows|
    ensures |rows| > 0 ==>
      && |buffer.commands| == |rows| + 3
      && buffer.commands[1] == DrawCentredString(TITLE_X, TITLE_Y, CART_TITLE)
      && forall i :: 0 <= i < |rows| ==> buffer.commands[2 + i] == DrawString(LINE_X, LineY(i), EntryLine(rows[i]))
    ensures |rows| == 0 ==>
      buffer.commands == [SetFont(FONT_NAME, FONT_SIZE), DrawCentredString(TITLE_X, EMPTY_TITLE_Y, EMPTY_CART_TITLE), ShowPage, Save]
  {
    var canvas: seq<DrawCommand> := [SetFont(FONT_NAME, FONT_SIZE)];
    var x, y := LINE_X, FIRST_LINE_Y;
    if |rows| > 0 {
      canvas := canvas + [DrawCentredString(TITLE_X, TITLE_Y, CART_TITLE)];
      CountLinesNone(canvas);
      ghost var head := canvas;
      for i := 0 to |rows|
        invariant |canvas| == 2 + i && canvas[..2] == head
        invariant x == LINE_X && y == LineY(i)
        invariant EntriesDrawn(canvas, rows, i) && CountLines(canvas) == i
      {
        DrawNextEntry(canvas, rows, i);
        canvas := canvas + [DrawString(x, y, EntryLine(rows[i]))];
        y := y - LINE_STEP;
      }
      SavePage(canvas, rows);
      canvas := canvas + [Save];
      assert canvas[0] == head[0] && canvas[1] == head[1];
    } else {
      canvas := canvas + [DrawCentredString(TITLE_X, EMPTY_TITLE_Y, EMPTY_CART_TITLE), ShowPage, Save];
      CountLinesNone(canvas);
    }
    // `buffer.seek(0)` after saving: the buffer is handed over rewound.
    buffer := PdfBuffer(canvas, 0);
  }

  /** Lines are drawn on one page only: from the 23rd entry on (index 22), a
      line's height is below the page's bottom edge. */
  lemma LinesBelowPage(i: nat)
    ensures LineY(i) < 0 <==> i >= 22
  {
  }
}
