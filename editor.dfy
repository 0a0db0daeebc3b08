/**
 * The editor component's state and its handlers. Each handler is one atomic
 * transition on the current state; the new layer list is computed by the pure
 * list operations of module Layers.
 */
module Editor {
  import opened Optional
  import opened Layers
  import Pointer
  import Export
  import Decimal

  class ArtEditor {
    /** The uploaded image as a data URL, if any. */
    var background: Option<string>
    var backgroundColor: string
    var textLayers: seq<TextLayer>
    var selectedLayerId: string
    var isDragging: bool
    var brightness: int
    var contrast: int

    /** The state the editor starts in. */
    constructor ()
      ensures background == None && backgroundColor == "#000000"
      ensures textLayers == [InitialLayer] && selectedLayerId == "1"
      ensures !isDragging && brightness == 100 && contrast == 100
    {
      background := None;
      backgroundColor := "#000000";
      textLayers := [InitialLayer];
      selectedLayerId := "1";
      isDragging := false;
      brightness := 100;
      contrast := 100;
    }

    /** The layer the properties panel edits: the first one carrying the selected id. */
    function SelectedLayer(): (r: Option<TextLayer>)
      reads this
      ensures r.Some? <==> HasId(textLayers, selectedLayerId)
      ensures r.Some? ==> r.value in textLayers && r.value.id == selectedLayerId
      ensures r.Some? ==> exists i :: 0 <= i < |textLayers| && textLayers[i] == r.value &&
                                      forall j :: 0 <= j < i ==> textLayers[j].id != selectedLayerId
    {
      FindLayer(textLayers, selectedLayerId)
    }

    /** The file reader finished: the data URL becomes the background. */
    method SetBackground(dataUrl: string)
      modifies this
      ensures background == Some(dataUrl)
      ensures backgroundColor == old(backgroundColor) && brightness == old(brightness) && contrast == old(contrast)
      ensures textLayers == old(textLayers) && selectedLayerId == old(selectedLayerId) && isDragging == old(isDragging)
    {
      background := Some(dataUrl);
    }

    method SetBackgroundColor(color: string)
      modifies this
      ensures backgroundColor == color
      ensures background == old(background) && brightness == old(brightness) && contrast == old(contrast)
      ensures textLayers == old(textLayers) && selectedLayerId == old(selectedLayerId) && isDragging == old(isDragging)
    {
      backgroundColor := color;
    }

    method SetBrightness(value: int)
      modifies this
      ensures brightness == value
      ensures background == old(background) && backgroundColor == old(backgroundColor) && contrast == old(contrast)
      ensures textLayers == old(textLayers) && selectedLayerId == old(selectedLayerId) && isDragging == old(isDragging)
    {
      brightness := value;
    }

    method SetContrast(value: int)
      modifies this
      ensures contrast == value
      ensures background == old(background) && backgroundColor == old(backgroundColor) && brightness == old(brightness)
      ensures textLayers == old(textLayers) && selectedLayerId == old(selectedLayerId) && isDragging == old(isDragging)
    {
      contrast := value;
    }

    /** A click on a layer's entry in the layer list selects it. */
    method SelectLayer(layerId: string)
      modifies this
      ensures selectedLayerId == layerId
      ensures textLayers == old(textLayers) && isDragging == old(isDragging)
      ensures background == old(background) && backgroundColor == old(backgroundColor)
      ensures brightness == old(brightness) && contrast == old(contrast)
    {
      selectedLayerId := layerId;
    }

    /** Mouse-down on a layer selects it and starts a drag. */
    method HandleMouseDown(layerId: string)
      modifies this
      ensures selectedLayerId == layerId && isDragging
      ensures textLayers == old(textLayers)
      ensures background == old(background) && backgroundColor == old(backgroundColor)
      ensures brightness == old(brightness) && contrast == old(contrast)
    {
      selectedLayerId := layerId;
      isDragging := true;
    }

    /**
     * A pointer move over the surface. `surface` is the surface's bounding
     * rectangle, or None while the surface element is not mounted.
     */
    method HandleMouseMove(pointerX: real, pointerY: real, surface: Option<Pointer.Rect>)
      requires surface.Some? ==> Pointer.NonEmpty(surface.value)
      modifies this
      ensures old(isDragging) && surface.Some? ==>
        textLayers == Patched(old(textLayers), selectedLayerId,
                              MoveTo(Pointer.DragTarget(pointerX, pointerY, surface.value)))
      ensures !(old(isDragging) && surface.Some?) ==> textLayers == old(textLayers)
      ensures |textLayers| == |old(textLayers)|
      ensures forall i :: 0 <= i < |textLayers| && old(textLayers)[i].id != selectedLayerId ==>
        textLayers[i] == old(textLayers)[i]
      ensures old(isDragging) && surface.Some? ==>
        forall i :: 0 <= i < |textLayers| && old(textLayers)[i].id == selectedLayerId ==>
          textLayers[i] == old(textLayers)[i].(position := Pointer.DragTarget(pointerX, pointerY, surface.value))
      ensures selectedLayerId == old(selectedLayerId) && isDragging == old(isDragging)
      ensures background == old(background) && backgroundColor == old(backgroundColor)
      ensures brightness == old(brightness) && contrast == old(contrast)
    {
      if isDragging && surface.Some? {
        var target := Pointer.DragTarget(pointerX, pointerY, surface.value);
        textLayers := Patched(textLayers, selectedLayerId, MoveTo(target));
      }
    }

    /** Mouse-up and mouse-leave on the surface both end any drag. */
    method HandleMouseUp()
      modifies this
      ensures !isDragging
      ensures textLayers == old(textLayers) && selectedLayerId == old(selectedLayerId)
      ensures background == old(background) && backgroundColor == old(backgroundColor)
      ensures brightness == old(brightness) && contrast == old(contrast)
    {
      isDragging := false;
    }

    /** Appends a default layer with id `String(length + 1)` and selects it. */
    method AddNewTextLayer()
      modifies this
      ensures textLayers == old(textLayers) + [NewLayer(|old(textLayers)|)]
      ensures selectedLayerId == Decimal.NatString(|old(textLayers)| + 1)
      ensures HasId(textLayers, selectedLayerId)
      ensures isDragging == old(isDragging)
      ensures background == old(background) && backgroundColor == old(backgroundColor)
      ensures brightness == old(brightness) && contrast == old(contrast)
    {
      var newLayer := NewLayer(|textLayers|);
      textLayers := textLayers + [newLayer];
      selectedLayerId := newLayer.id;
      assert textLayers[|textLayers| - 1].id == selectedLayerId;
    }

    /**
     * With more than one layer, drops the layers carrying the selected id and
     * selects the first id of the list as it was before the removal.
     */
    method RemoveSelectedLayer()
      modifies this
      ensures |old(textLayers)| <= 1 ==> textLayers == old(textLayers) && selectedLayerId == old(selectedLayerId)
      ensures |old(textLayers)| > 1 ==>
        textLayers == Filtered(old(textLayers), old(selectedLayerId)) &&
        selectedLayerId == old(textLayers)[0].id
      ensures |old(textLayers)| > 1 && DistinctIds(old(textLayers)) ==>
        |textLayers| >= 1 && DistinctIds(textLayers) &&
        (HasId(old(textLayers), old(selectedLayerId)) ==> |textLayers| == |old(textLayers)| - 1) &&
        (HasId(textLayers, selectedLayerId) <==> old(textLayers)[0].id != old(selectedLayerId))
      ensures isDragging == old(isDragging)
      ensures background == old(background) && backgroundColor == old(backgroundColor)
      ensures brightness == old(brightness) && contrast == old(contrast)
    {
      if |textLayers| > 1 {
        var before := textLayers;
        var removed := selectedLayerId;
        textLayers := Filtered(before, removed);
        selectedLayerId := before[0].id;
        if DistinctIds(before) {
          RemovingDropsAtMostOne(before, removed);
          FilteredDistinct(before, removed);
          if HasId(before, removed) {
            RemovingPresentIdDropsOne(before, removed);
          }
          FirstIdSurvives(before, removed);
        }
      }
    }

    /**
     * A click on a layer row's trash button. The button is shown only on the
     * selected row, and it sits inside that row, so the same click also runs
     * the row's selection handler with the selected id; both updates land in
     * one batch and the row's selection is applied last, leaving the removed
     * id selected.
     */
    method ClickRemoveButton()
      modifies this
      ensures |old(textLayers)| <= 1 ==> textLayers == old(textLayers)
      ensures |old(textLayers)| > 1 ==> textLayers == Filtered(old(textLayers), old(selectedLayerId))
      ensures selectedLayerId == old(selectedLayerId)
      ensures |old(textLayers)| > 1 ==> !HasId(textLayers, selectedLayerId)
      ensures isDragging == old(isDragging)
      ensures background == old(background) && backgroundColor == old(backgroundColor)
      ensures brightness == old(brightness) && contrast == old(contrast)
    {
      var clicked := selectedLayerId;
      RemoveSelectedLayer();
      SelectLayer(clicked);
    }

    /** Merges `updates` into every layer carrying the selected id. */
    method UpdateSelectedLayer(updates: LayerUpdate)
      modifies this
      ensures textLayers == Patched(old(textLayers), selectedLayerId, updates)
      ensures !HasId(old(textLayers), selectedLayerId) ==> textLayers == old(textLayers)
      ensures selectedLayerId == old(selectedLayerId) && isDragging == old(isDragging)
      ensures background == old(background) && backgroundColor == old(backgroundColor)
      ensures brightness == old(brightness) && contrast == old(contrast)
    {
      if !HasId(textLayers, selectedLayerId) {
        PatchedAbsent(textLayers, selectedLayerId, updates);
      }
      textLayers := Patched(textLayers, selectedLayerId, updates);
    }

    /**
     * The export: the canvas calls in the order the export makes them.
     * `hasContext` is whether the canvas yields a 2D context, `imageLoads`
     * whether the background image fires its load event.
     */
    method DownloadImage(hasContext: bool, imageLoads: bool) returns (plan: seq<Export.Command>)
      ensures plan == Export.ExportPlan(backgroundColor, background, brightness, contrast, textLayers, hasContext, imageLoads)
    {
      if !hasContext {
        return [];
      }
      plan := [Export.SetFillStyle(backgroundColor), Export.FillRect(0, 0, Export.CanvasSize, Export.CanvasSize)];
      if background.Some? {
        if !imageLoads {
          return;
        }
        var image := DrawBackgroundImage();
        plan := plan + image;
      }
      ghost var front := plan;
      var texts := DrawTextLayers();
      plan := plan + texts;
      ConcatAssoc(front, Export.LayerCommands(textLayers), [Export.Download(Export.FileName, Export.ImageType)]);
    }

    /** The image's load handler: the image is drawn under the adjustment filter, which is then cleared. */
    method DrawBackgroundImage() returns (cmds: seq<Export.Command>)
      requires background.Some?
      ensures cmds == Export.ImageCommands(background.value, brightness, contrast)
    {
      cmds := [Export.SetFilter(Export.FilterText(brightness, contrast))];
      cmds := cmds + [Export.DrawImage(background.value, 0, 0, Export.CanvasSize, Export.CanvasSize)];
      cmds := cmds + [Export.SetFilter("none")];
    }

    /** Draws every layer in list order, then triggers the download. */
    method DrawTextLayers() returns (plan: seq<Export.Command>)
      ensures plan == Export.LayerCommands(textLayers) + [Export.Download(Export.FileName, Export.ImageType)]
    {
      plan := [];
      var i := 0;
      while i < |textLayers|
        invariant 0 <= i <= |textLayers|
        invariant plan == Export.LayerCommands(textLayers[..i])
      {
        var layer := textLayers[i];
        var centre := Export.PixelCentre(layer.position);
        ghost var done := plan;
        plan := plan + [Export.Save];
        plan := plan + [Export.SetFont(layer.fontSize * 2, layer.fontFamily)];
        plan := plan + [Export.SetFillStyle(layer.color)];
        plan := plan + [Export.SetTextAlign("center"), Export.SetTextBaseline("middle")];
        plan := plan + [Export.Translate(centre.0, centre.1)];
        plan := plan + [Export.Rotate(layer.rotation)];
        plan := plan + [Export.FillText(layer.text, 0, 0)];
        plan := plan + [Export.Restore];
        assert plan == done + Export.DrawLayer(layer);
        assert textLayers[..i + 1][..i] == textLayers[..i];
        i := i + 1;
      }
      assert textLayers[..i] == textLayers;
      plan := plan + [Export.Download(Export.FileName, Export.ImageType)];
    }
  }

  lemma ConcatAssoc<T>(a: seq<T>, b: seq<T>, c: seq<T>)
    ensures a + (b + c) == a + b + c
  {
  }

  /**
   * The first id survives a removal with distinct ids exactly when it was not
   * the removed id: removing the first layer leaves the selection on an id no
   * layer carries.
   */
  lemma {:induction false} FirstIdSurvives(layers: seq<TextLayer>, removed: string)
    requires |layers| > 1 && DistinctIds(layers)
    ensures HasId(Filtered(layers, removed), layers[0].id) <==> layers[0].id != removed
  {
    var r := Filtered(layers, removed);
    if layers[0].id != removed {
      assert layers[0] in r;
      var i :| 0 <= i < |r| && r[i] == layers[0];
    }
  }

  /**
   * Ids are not unique: add, select "1", remove, add, remove leaves no layer at
   * all, although a removal never starts from fewer than two layers.
   */
  method StaleIdsEmptyTheList() returns (e: ArtEditor)
    ensures e.textLayers == [] && e.selectedLayerId == "2"
  {
    assert Decimal.NatString(2) == "2";
    var first := [InitialLayer, NewLayer(1)];
    assert Filtered(first, "1") == [NewLayer(1)] by {
      assert first[1..] == [NewLayer(1)];
    }
    var second := [NewLayer(1), NewLayer(1)];
    assert Filtered(second, "2") == [] by {
      assert CountId(second, "2") == 2 by {
        assert second[1..] == [NewLayer(1)];
      }
    }
    e := new ArtEditor();
    e.AddNewTextLayer();
    e.SelectLayer("1");
    e.RemoveSelectedLayer();
    e.AddNewTextLayer();
    assert e.textLayers == second;
    e.RemoveSelectedLayer();
  }

  /** Starting from the initial layer and adding twice gives three layers, the last one selected. */
  method AddTwice() returns (e: ArtEditor)
    ensures e.textLayers == [InitialLayer, NewLayer(1), NewLayer(2)]
    ensures |e.textLayers| == 3 && e.textLayers[0] == InitialLayer
    ensures e.textLayers[1].position == Position(50.0, 50.0) && e.textLayers[2].position == Position(50.0, 50.0)
    ensures e.textLayers[2].text == "New Text" && e.selectedLayerId == e.textLayers[2].id == "3"
    ensures DistinctIds(e.textLayers)
  {
    e := new ArtEditor();
    e.AddNewTextLayer();
    e.AddNewTextLayer();
    assert Decimal.NatString(2) == "2" && Decimal.NatString(3) == "3";
  }
}
