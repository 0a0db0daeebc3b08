/**
 * Export as a plan: the ordered canvas-context calls that the export makes,
 * as abstract draw commands. The renderer that carries them out (pixels,
 * fonts, filters, PNG encoding, the download link) is not modelled.
 */
module Export {
  import opened Optional
  import opened Layers
  import Decimal
  import Pointer

  /** Width and height of the export canvas, in pixels. */
  const CanvasSize: int := 1000
  const FileName: string := "spotify-cover.png"
  const ImageType: string := "image/png"

  datatype Command =
    | SetFillStyle(style: string)
    | FillRect(x: int, y: int, width: int, height: int)
    | SetFilter(filter: string)
    | DrawImage(source: string, x: int, y: int, width: int, height: int)
    | Save
    | SetFont(sizePx: int, family: string)
    | SetTextAlign(align: string)
    | SetTextBaseline(baseline: string)
    | Translate(dx: real, dy: real)
    | Rotate(degrees: int)
    | FillText(text: string, x: int, y: int)
    | Restore
    | Download(fileName: string, mimeType: string)

  /** The CSS filter the export applies to the background image. */
  function FilterText(brightness: int, contrast: int): (r: string)
    ensures |r| == 25 + |Decimal.IntString(brightness)| + |Decimal.IntString(contrast)|
  {
    "brightness(" + Decimal.IntString(brightness) + "%) contrast(" + Decimal.IntString(contrast) + "%)"
  }

  /** The export pixel of a percentage position. */
  function PixelCentre(p: Position): (c: (real, real))
    ensures 0.0 <= p.x <= 100.0 ==> 0.0 <= c.0 <= CanvasSize as real
    ensures 0.0 <= p.y <= 100.0 ==> 0.0 <= c.1 <= CanvasSize as real
  {
    (p.x / 100.0 * CanvasSize as real, p.y / 100.0 * CanvasSize as real)
  }

  /** The calls that draw one layer, bracketed by save and restore. */
  function DrawLayer(l: TextLayer): (r: seq<Command>)
    ensures |r| == 9 && r[0] == Save && r[8] == Restore
  {
    var c := PixelCentre(l.position);
    [ Save,
      SetFont(l.fontSize * 2, l.fontFamily),
      SetFillStyle(l.color),
      SetTextAlign("center"),
      SetTextBaseline("middle"),
      Translate(c.0, c.1),
      Rotate(l.rotation),
      FillText(l.text, 0, 0),
      Restore ]
  }

  /** The calls that draw all layers, in list order. */
  function LayerCommands(layers: seq<TextLayer>): (r: seq<Command>)
    ensures |r| == 9 * |layers|
  {
    if layers == [] then []
    else LayerCommands(layers[..|layers| - 1]) + DrawLayer(layers[|layers| - 1])
  }

  /** The calls that draw the background image with the adjustment filter, then clear it. */
  function ImageCommands(source: string, brightness: int, contrast: int): (r: seq<Command>)
    ensures |r| == 3 && r[0] == SetFilter(FilterText(brightness, contrast)) && r[2] == SetFilter("none")
    ensures r[1].DrawImage? && r[1].source == source
    ensures r[1].x == 0 && r[1].y == 0 && r[1].width == CanvasSize && r[1].height == CanvasSize
  {
    [SetFilter(FilterText(brightness, contrast)), DrawImage(source, 0, 0, CanvasSize, CanvasSize), SetFilter("none")]
  }

  /**
   * The whole export. `hasContext` is whether the canvas yields a 2D context;
   * `imageLoads` is whether the background image fires its load event. When it
   * does not, the text layers are never drawn and nothing is downloaded.
   */
  function ExportPlan(backgroundColor: string, background: Option<string>, brightness: int, contrast: int,
                      layers: seq<TextLayer>, hasContext: bool, imageLoads: bool): (r: seq<Command>)
    ensures !hasContext ==> |r| == 0
    ensures hasContext ==> |r| >= 2 && r[0] == SetFillStyle(backgroundColor) && r[1] == FillRect(0, 0, CanvasSize, CanvasSize)
  {
    if !hasContext then []
    else
      var fill := [SetFillStyle(backgroundColor), FillRect(0, 0, CanvasSize, CanvasSize)];
      match background
      case None => fill + LayerCommands(layers) + [Download(FileName, ImageType)]
      case Some(source) =>
        if imageLoads then fill + ImageCommands(source, brightness, contrast) + LayerCommands(layers) + [Download(FileName, ImageType)]
        else fill
  }

  /** Texts of the FillText calls, in call order. */
  function DrawnTexts(cmds: seq<Command>): seq<string> {
    if cmds == [] then []
    else DrawnTexts(cmds[..|cmds| - 1]) + (if cmds[|cmds| - 1].FillText? then [cmds[|cmds| - 1].text] else [])
  }

  function Texts(layers: seq<TextLayer>): (r: seq<string>)
    ensures |r| == |layers| && forall k :: 0 <= k < |layers| ==> r[k] == layers[k].text
  {
    if layers == [] then [] else Texts(layers[..|layers| - 1]) + [layers[|layers| - 1].text]
  }

  // ---------------------------------------------------------------------------
  // Properties

  /** The `k`-th block of nine calls draws the `k`-th layer. */
  lemma {:induction false} LayerCommandsAt(layers: seq<TextLayer>, k: int)
    requires 0 <= k < |layers|
    ensures |LayerCommands(layers)| == 9 * |layers|
    ensures LayerCommands(layers)[9 * k .. 9 * k + 9] == DrawLayer(layers[k])
  {
    var n := |layers|;
    var front := layers[..n - 1];
    if k < n - 1 {
      LayerCommandsAt(front, k);
      assert front[k] == layers[k];
    } else if n > 1 {
      LayerCommandsAt(front, 0);
    }
  }

  /** Nothing in the layer calls touches the filter. */
  lemma {:induction false} LayerCommandsNoFilter(layers: seq<TextLayer>)
    ensures forall i :: 0 <= i < |LayerCommands(layers)| ==> !LayerCommands(layers)[i].SetFilter?
  {
    if layers != [] {
      LayerCommandsNoFilter(layers[..|layers| - 1]);
    }
  }

  lemma {:induction false} DrawnTextsAppend(a: seq<Command>, b: seq<Command>)
    ensures DrawnTexts(a + b) == DrawnTexts(a) + DrawnTexts(b)
  {
    if b != [] {
      var b' := b[..|b| - 1];
      assert (a + b)[..|a + b| - 1] == a + b';
      DrawnTextsAppend(a, b');
    } else {
      assert a + b == a;
    }
  }

  lemma {:induction false} DrawnTextsNone(cmds: seq<Command>)
    requires forall i :: 0 <= i < |cmds| ==> !cmds[i].FillText?
    ensures DrawnTexts(cmds) == []
  {
    if cmds != [] {
      DrawnTextsNone(cmds[..|cmds| - 1]);
    }
  }

  lemma DrawnTextsOfLayer(l: TextLayer)
    ensures DrawnTexts(DrawLayer(l)) == [l.text]
  {
    var d := DrawLayer(l);
    DrawnTextsNone(d[..7]);
    DrawnTextsNone([d[8]]);
    assert DrawnTexts([d[7]]) == [l.text] by { assert [d[7]][..0] == []; }
    DrawnTextsAppend(d[..7], [d[7]]);
    DrawnTextsAppend(d[..7] + [d[7]], [d[8]]);
    assert d == d[..7] + [d[7]] + [d[8]];
  }

  /** The layer calls fill exactly the layers' texts, in list order: list order is paint order. */
  lemma {:induction false} LayerCommandsTexts(layers: seq<TextLayer>)
    ensures DrawnTexts(LayerCommands(layers)) == Texts(layers)
  {
    if layers != [] {
      var n := |layers|;
      var front := layers[..n - 1];
      var last := layers[n - 1];
      LayerCommandsTexts(front);
      assert LayerCommands(layers) == LayerCommands(front) + DrawLayer(last);
      DrawnTextsAppend(LayerCommands(front), DrawLayer(last));
      DrawnTextsOfLayer(last);
      assert DrawnTexts(LayerCommands(layers)) == Texts(front) + [last.text];
    }
  }

  /** Where the first layer call stands in a complete plan. */
  function LayersStart(background: Option<string>): nat {
    if background.Some? then 5 else 2
  }

  /**
   * A complete export fills the canvas with the background colour, then (with
   * an image) sets the filter, draws the image and resets the filter, then
   * draws each layer in list order, then downloads `spotify-cover.png`.
   */
  lemma {:induction false} ExportOrder(backgroundColor: string, background: Option<string>, brightness: int, contrast: int,
                    layers: seq<TextLayer>, imageLoads: bool)
    requires background.None? || imageLoads
    ensures var plan := ExportPlan(backgroundColor, background, brightness, contrast, layers, true, imageLoads);
      var start := LayersStart(background);
      && |plan| == start + 9 * |layers| + 1
      && plan[0] == SetFillStyle(backgroundColor)
      && plan[1] == FillRect(0, 0, CanvasSize, CanvasSize)
      && (background.Some? ==> plan[2..5] == ImageCommands(background.value, brightness, contrast))
      && (forall k :: 0 <= k < |layers| ==> plan[start + 9 * k .. start + 9 * k + 9] == DrawLayer(layers[k]))
      && plan[|plan| - 1] == Download(FileName, ImageType)
  {
    var plan := ExportPlan(backgroundColor, background, brightness, contrast, layers, true, imageLoads);
    var start := LayersStart(background);
    var lc := LayerCommands(layers);
    var fill := [SetFillStyle(backgroundColor), FillRect(0, 0, CanvasSize, CanvasSize)];
    var front := if background.Some? then fill + ImageCommands(background.value, brightness, contrast) else fill;
    var dl := [Download(FileName, ImageType)];
    assert plan == front + lc + dl;
    assert |front| == start;
    LayerBlocks(front, layers, dl);
  }

  /** Behind any prefix, the `k`-th block of nine layer calls draws the `k`-th layer. */
  lemma {:induction false} LayerBlocks(front: seq<Command>, layers: seq<TextLayer>, back: seq<Command>)
    ensures forall k :: 0 <= k < |layers| ==>
      (front + LayerCommands(layers) + back)[|front| + 9 * k .. |front| + 9 * k + 9] == DrawLayer(layers[k])
  {
    var lc := LayerCommands(layers);
    forall k | 0 <= k < |layers|
      ensures (front + lc + back)[|front| + 9 * k .. |front| + 9 * k + 9] == DrawLayer(layers[k])
    {
      LayerCommandsAt(layers, k);
      MiddleSlice(front, lc, back, 9 * k, 9 * k + 9);
    }
  }

  lemma {:induction false} MiddleSlice<T>(a: seq<T>, b: seq<T>, c: seq<T>, lo: int, hi: int)
    requires 0 <= lo <= hi <= |b|
    ensures (a + b + c)[|a| + lo .. |a| + hi] == b[lo..hi]
  {
  }

  /** After the image has been drawn the filter is never set again, so it cannot reach the text. */
  lemma {:induction false} FilterResetBeforeText(backgroundColor: string, background: Option<string>, brightness: int, contrast: int,
                              layers: seq<TextLayer>, hasContext: bool, imageLoads: bool)
    ensures var plan := ExportPlan(backgroundColor, background, brightness, contrast, layers, hasContext, imageLoads);
      forall i :: LayersStart(background) <= i < |plan| ==> !plan[i].SetFilter?
    ensures background.None? ==>
      var plan := ExportPlan(backgroundColor, background, brightness, contrast, layers, hasContext, imageLoads);
      forall i :: 0 <= i < |plan| ==> !plan[i].SetFilter?
  {
    LayerCommandsNoFilter(layers);
  }

  /** The texts drawn by an export are exactly the layers' texts in list order (or none). */
  lemma {:induction false} ExportTexts(backgroundColor: string, background: Option<string>, brightness: int, contrast: int,
                    layers: seq<TextLayer>, hasContext: bool, imageLoads: bool)
    ensures var plan := ExportPlan(backgroundColor, background, brightness, contrast, layers, hasContext, imageLoads);
      DrawnTexts(plan) == if hasContext && (background.None? || imageLoads) then Texts(layers) else []
  {
    var fill := [SetFillStyle(backgroundColor), FillRect(0, 0, CanvasSize, CanvasSize)];
    DrawnTextsNone(fill);
    if hasContext {
      match background
      case None =>
        LayersBetween(fill, layers);
      case Some(source) =>
        if imageLoads {
          var img := ImageCommands(source, brightness, contrast);
          DrawnTextsNone(img);
          DrawnTextsAppend(fill, img);
          LayersBetween(fill + img, layers);
        }
    }
  }

  /** Layer calls behind calls that fill no text, then the download, fill exactly the layers' texts. */
  lemma {:induction false} LayersBetween(front: seq<Command>, layers: seq<TextLayer>)
    requires DrawnTexts(front) == []
    ensures DrawnTexts(front + LayerCommands(layers) + [Download(FileName, ImageType)]) == Texts(layers)
  {
    var tail := [Download(FileName, ImageType)];
    DrawnTextsNone(tail);
    LayerCommandsTexts(layers);
    DrawnTextsAppend(front, LayerCommands(layers));
    DrawnTextsAppend(front + LayerCommands(layers), tail);
  }

  /** Without a 2D context nothing happens; with an image that never loads only the colour is filled. */
  lemma ExportIncomplete(backgroundColor: string, background: Option<string>, brightness: int, contrast: int,
                         layers: seq<TextLayer>, hasContext: bool, imageLoads: bool)
    ensures !hasContext ==> ExportPlan(backgroundColor, background, brightness, contrast, layers, hasContext, imageLoads) == []
    ensures hasContext && background.Some? && !imageLoads ==>
      ExportPlan(backgroundColor, background, brightness, contrast, layers, hasContext, imageLoads)
        == [SetFillStyle(backgroundColor), FillRect(0, 0, CanvasSize, CanvasSize)]
  {
  }

  /** Each layer is drawn at twice its preview font size, centred on its position scaled to the canvas. */
  lemma LayerGeometry(l: TextLayer)
    ensures DrawLayer(l)[1] == SetFont(2 * l.fontSize, l.fontFamily)
    ensures DrawLayer(l)[5].Translate?
    ensures 0.0 <= l.position.x <= 100.0 ==> 0.0 <= DrawLayer(l)[5].dx <= 1000.0
    ensures 0.0 <= l.position.y <= 100.0 ==> 0.0 <= DrawLayer(l)[5].dy <= 1000.0
    ensures DrawLayer(l)[5].dx == l.position.x * 10.0 && DrawLayer(l)[5].dy == l.position.y * 10.0
  {
  }

  /**
   * The export centre is the preview's placement on a 1000x1000 surface, and on
   * any surface the preview offset is the export centre scaled by width / 1000.
   */
  lemma ExportMatchesPreview(p: Position, rect: Pointer.Rect)
    ensures PixelCentre(p) == Pointer.PreviewPoint(p, Pointer.Rect(0.0, 0.0, 1000.0, 1000.0))
    ensures Pointer.PreviewPoint(p, rect).0 - rect.left == PixelCentre(p).0 * rect.width / 1000.0
    ensures Pointer.PreviewPoint(p, rect).1 - rect.top == PixelCentre(p).1 * rect.height / 1000.0
  {
  }

  /**
   * The filter reads `brightness(`, the brightness text, `%) contrast(`, the
   * contrast text and `%)`, in that order.
   */
  lemma FilterTextFrame(brightness: int, contrast: int)
    ensures var f := FilterText(brightness, contrast);
      var b := Decimal.IntString(brightness);
      && f[..11] == "brightness("
      && f[11..11 + |b|] == b
      && f[11 + |b|..23 + |b|] == "%) contrast("
      && f[23 + |b|..|f| - 2] == Decimal.IntString(contrast)
      && f[|f| - 2..] == "%)"
  {
    var a := "brightness(";
    var b := Decimal.IntString(brightness);
    var m := "%) contrast(";
    var c := Decimal.IntString(contrast);
    var d := "%)";
    var f := FilterText(brightness, contrast);
    assert f == a + b + (m + c + d);
    PrefixSlice(a, b + (m + c + d));
    MiddleSlice(a, b, m + c + d, 0, |b|);
    assert f == (a + b) + m + (c + d);
    MiddleSlice(a + b, m, c + d, 0, |m|);
    assert f == (a + b + m) + c + d;
    MiddleSlice(a + b + m, c, d, 0, |c|);
    assert f == (a + b + m + c) + d;
    SuffixSlice(a + b + m + c, d);
  }

  lemma {:induction false} PrefixSlice<T>(a: seq<T>, b: seq<T>)
    ensures (a + b)[..|a|] == a
  {
  }

  lemma {:induction false} SuffixSlice<T>(a: seq<T>, b: seq<T>)
    ensures (a + b)[|a|..] == b
  {
  }

  /** With brightness 50 and contrast 150 the filter reads `brightness(50%) contrast(150%)`. */
  lemma FilterTextExample()
    ensures FilterText(50, 150) == "brightness(50%) contrast(150%)"
  {
    assert Decimal.IntString(50) == "50" by {
      assert Decimal.NatString(5) == "5";
    }
    assert Decimal.IntString(150) == "150" by {
      assert Decimal.NatString(15) == "15" by {
        assert Decimal.NatString(1) == "1";
      }
    }
  }

  /** With the initial settings the filter reads `brightness(100%) contrast(100%)`. */
  lemma FilterTextDefault()
    ensures FilterText(100, 100) == "brightness(100%) contrast(100%)"
  {
    assert Decimal.IntString(100) == "100" by {
      assert Decimal.NatString(10) == "10" by {
        assert Decimal.NatString(1) == "1";
      }
    }
  }

  /** A red background without an image: the canvas is filled red and no filter is ever set. */
  lemma {:induction false} RedBackgroundExport(layers: seq<TextLayer>)
    ensures var plan := ExportPlan("#FF0000", None, 100, 100, layers, true, true);
      plan[0] == SetFillStyle("#FF0000") && plan[1] == FillRect(0, 0, 1000, 1000)
      && forall i :: 0 <= i < |plan| ==> !plan[i].SetFilter?
  {
    FilterResetBeforeText("#FF0000", None, 100, 100, layers, true, true);
  }
}
