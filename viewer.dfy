/** The 3D part viewer: per-node drag state, the rule that tells a click
    from a drag, the page-wide selection slot and the table of parts the
    detail modal looks up. */
module PartViewer {

  datatype Option<T> = None | Some(value: T)

  /** A pointer position in client pixels. */
  datatype Point = Point(x: real, y: real)

  /** The start point every node holds before its first pointer-down. */
  const ORIGIN: Point := Point(0.0, 0.0)

  /** A release closer than this to the press is a click. */
  const CLICK_RADIUS: real := 5.0

  function SquaredDistance(a: Point, b: Point): (r: real)
    ensures r >= 0.0
  {
    var dx := b.x - a.x;
    var dy := b.y - a.y;
    dx * dx + dy * dy
  }

  /** The click-versus-drag rule applied on pointer-up: the node has a click
      handler and the release lies inside the click radius around the press.
      Squared distances are compared, which avoids the square root. */
  predicate IsClick(start: Point, end: Point, hasOnClick: bool)
  {
    hasOnClick && SquaredDistance(start, end) < CLICK_RADIUS * CLICK_RADIUS
  }

  /** The squared comparison agrees with comparing the Euclidean distance
      `d` (the non-negative root of the squared distance) with the radius. */
  lemma ClickIffWithinRadius(start: Point, end: Point, d: real)
    requires d >= 0.0 && d * d == SquaredDistance(start, end)
    ensures IsClick(start, end, true) <==> d < CLICK_RADIUS
  {
    assert IsClick(start, end, true) <==> SquaredDistance(start, end) < 25.0;
    if d < CLICK_RADIUS {
      MulNonneg(d, 5.0 - d);
      assert d * (5.0 - d) == 5.0 * d - d * d;
    } else {
      MulNonneg(d, d - 5.0);
      assert d * (d - 5.0) == d * d - 5.0 * d;
    }
  }

  lemma MulNonneg(x: real, y: real)
    requires x >= 0.0 && y >= 0.0
    ensures x * y >= 0.0
  {
  }

  /** A node without a click handler never reports a click. */
  lemma NoHandlerNoClick(start: Point, end: Point)
    ensures !IsClick(start, end, false)
  {
  }

  /** A release exactly where the press was is a click on a node with a handler. */
  lemma ReleaseInPlaceIsClick(p: Point)
    ensures IsClick(p, p, true)
  {
  }

  /** Press at (100, 100), release at (102, 101): distance about 2.24, a click. */
  lemma SmallMoveIsClick()
    ensures IsClick(Point(100.0, 100.0), Point(102.0, 101.0), true)
  {
  }

  /** Press at (100, 100), release at (200, 100): distance 100, a drag. */
  lemma LongMoveIsDrag()
    ensures !IsClick(Point(100.0, 100.0), Point(200.0, 100.0), true)
  {
  }

  /** One entry of the detail modal's table. */
  datatype Part = Part(name: string, description: string, path: string)

  const PARTS: map<string, Part> := map[
    "stm32" := Part("STM32 Microcontroller",
                    "This is the STM32 microcontroller used to run the system.",
                    "/stm32.glb"),
    "lcd" := Part("LCD Display",
                  "This is the LCD screen used to display the game state.",
                  "/lcd.glb"),
    "joystick" := Part("Potentiometer Joystick",
                       "This is a potentiometer-based joystick for controlling input.",
                       "/joystick.glb"),
    "breadboard" := Part("Breadboard",
                         "This breadboard connects and powers all the components.",
                         "/breadboard.glb")
  ]

  /** The table has exactly the four part ids as keys. */
  lemma PartTableKeys()
    ensures PARTS.Keys == {"stm32", "lcd", "joystick", "breadboard"}
    ensures |PARTS.Keys| == 4
  {
  }

  /** `PartModal`'s `parts[part]` lookup. For a key that is not an own key
      of the table, `PartModal` fails when it unpacks the missing entry; that
      outcome is `None` here. */
  function LookupPart(key: string): (r: Option<Part>)
    ensures r.Some? <==>
      key == "stm32" || key == "lcd" || key == "joystick" || key == "breadboard"
    ensures r.Some? ==> r.value.path == "/" + key + ".glb"
  {
    if key in PARTS then Some(PARTS[key]) else None
  }

  /** Looking up `lcd` gives the LCD's name and asset path. */
  lemma LookupLcd()
    ensures LookupPart("lcd").Some?
    ensures LookupPart("lcd").value.name == "LCD Display"
    ensures LookupPart("lcd").value.path == "/lcd.glb"
  {
  }

  datatype Vec3 = Vec3(x: real, y: real, z: real)

  /** The props a `Model` element is rendered with. `onClick` is the id its
      handler selects, `None` when it has no handler. */
  datatype NodeConfig = NodeConfig(path: string, position: Vec3, scale: real,
                                   interactive: bool, onClick: Option<string>)

  /** The four nodes of the main scene, left to right. */
  const SCENE: seq<NodeConfig> := [
    NodeConfig("/stm32.glb", Vec3(-4.5, 0.0, 0.0), 15.0, true, Some("stm32")),
    NodeConfig("/lcd.glb", Vec3(-1.25, 0.0, 0.0), 15.0, true, Some("lcd")),
    NodeConfig("/joystick.glb", Vec3(1.25, 0.0, 0.0), 15.0, true, Some("joystick")),
    NodeConfig("/breadboard.glb", Vec3(4.5, 0.0, 0.0), 15.0, true, Some("breadboard"))
  ]

  /** The close-up node inside the modal: interactive, at the origin, with no
      click handler, and drawn at less than half the scale of a scene node. */
  function CloseUpConfig(path: string): (c: NodeConfig)
    ensures c.path == path && c.interactive && c.onClick == None
    ensures c.position == Vec3(0.0, 0.0, 0.0)
    ensures forall i :: 0 <= i < |SCENE| ==> 2.0 * c.scale < SCENE[i].scale
  {
    NodeConfig(path, Vec3(0.0, 0.0, 0.0), 6.0, true, None)
  }

  /** Every scene node is interactive and selects a known part whose table
      path is the asset the node shows; every part is selected by some node.
      The nodes share one scale and stand on the x axis from left to right. */
  lemma SceneMatchesTable()
    ensures forall i :: 0 <= i < |SCENE| ==>
      SCENE[i].interactive && SCENE[i].onClick.Some? &&
      LookupPart(SCENE[i].onClick.value).Some? &&
      LookupPart(SCENE[i].onClick.value).value.path == SCENE[i].path
    ensures forall k :: k in PARTS ==>
      exists i :: 0 <= i < |SCENE| && SCENE[i].onClick == Some(k)
    ensures forall i :: 0 <= i < |SCENE| ==>
      SCENE[i].scale == 15.0 && SCENE[i].position.y == 0.0 && SCENE[i].position.z == 0.0
    ensures forall i, j :: 0 <= i < j < |SCENE| ==> SCENE[i].position.x < SCENE[j].position.x
  {
    forall i | 0 <= i < |SCENE|
      ensures SCENE[i].interactive && SCENE[i].onClick.Some? &&
        LookupPart(SCENE[i].onClick.value).Some? &&
        LookupPart(SCENE[i].onClick.value).value.path == SCENE[i].path
    {
      if i == 0 {
        assert SCENE[0].onClick.value == "stm32";
      } else if i == 1 {
        assert SCENE[1].onClick.value == "lcd";
      } else if i == 2 {
        assert SCENE[2].onClick.value == "joystick";
      } else {
        assert SCENE[3].onClick.value == "breadboard";
      }
    }
    forall k | k in PARTS
      ensures exists i :: 0 <= i < |SCENE| && SCENE[i].onClick == Some(k)
    {
      if k == "stm32" {
        assert SCENE[0].onClick == Some(k);
      } else if k == "lcd" {
        assert SCENE[1].onClick == Some(k);
      } else if k == "joystick" {
        assert SCENE[2].onClick == Some(k);
      } else {
        assert SCENE[3].onClick == Some(k);
      }
    }
  }

  /** One mounted `Model`: its `isDragging` and `startPointer` refs. */
  class ModelNode {
    const interactive: bool
    const onClick: Option<string>
    var isDragging: bool
    var startPointer: Point

    constructor (config: NodeConfig)
      ensures interactive == config.interactive && onClick == config.onClick
      ensures !isDragging && startPointer == ORIGIN
    {
      interactive := config.interactive;
      onClick := config.onClick;
      isDragging := false;
      startPointer := ORIGIN;
    }

    /** `onPointerDown`: an interactive node starts a drag at `p`; a
        non-interactive node keeps both refs. */
    method PointerDown(p: Point)
      modifies this
      ensures interactive ==> isDragging && startPointer == p
      ensures !interactive ==>
        isDragging == old(isDragging) && startPointer == old(startPointer)
    {
      if interactive {
        isDragging := true;
        startPointer := p;
      }
    }

    /** `onPointerUp`: ends the drag and reports whether the handler fires.
        The start point is left as it was, so a release is measured from the
        node's last press, or from (0, 0) before its first one. */
    method PointerUp(end: Point) returns (fired: bool)
      modifies this
      ensures !isDragging && startPointer == old(startPointer)
      ensures fired == IsClick(old(startPointer), end, onClick.Some?)
    {
      isDragging := false;
      var dx := end.x - startPointer.x;
      var dy := end.y - startPointer.y;
      fired := dx * dx + dy * dy < 25.0 && onClick.Some?;
      assert dx * dx + dy * dy == SquaredDistance(old(startPointer), end);
    }

    /** The listener this node registers for `pointerup` on the window. */
    method WindowPointerUp()
      modifies this
      ensures !isDragging && startPointer == old(startPointer)
    {
      isDragging := false;
    }
  }

  /** Where a pointer event lands: on nothing clickable, on the `i`-th node of
      the main scene, or on the close-up node of the open modal. */
  datatype Target = Background | SceneNode(i: nat) | CloseUpNode

  /** The page: the four scene nodes, the `selectedModel` slot and, while the
      modal is open, its close-up node. */
  class LCDViewer {
    const nodes: seq<ModelNode>
    var selectedModel: Option<string>
    var closeUp: ModelNode?

    ghost predicate Valid()
      reads this, nodes, closeUp
    {
      |nodes| == |SCENE| &&
      (forall i :: 0 <= i < |nodes| ==>
        nodes[i].interactive == SCENE[i].interactive &&
        nodes[i].onClick == SCENE[i].onClick) &&
      (forall i, j :: 0 <= i < j < |nodes| ==> nodes[i] != nodes[j]) &&
      (selectedModel.Some? ==> selectedModel.value in PARTS) &&
      (closeUp != null <==> selectedModel.Some?) &&
      (closeUp != null ==>
        closeUp !in nodes && closeUp.interactive && closeUp.onClick == None)
    }

    /** Whether a pointer event can be delivered to `t`: a scene node that
        exists, or the close-up node while the modal is open. */
    predicate Hittable(t: Target)
      reads this
    {
      match t
      case Background => true
      case SceneNode(i) => i < |nodes|
      case CloseUpNode => closeUp != null
    }

    /** The part the modal shows, `None` while it is closed. Whenever the
        modal is open its lookup succeeds. */
    function ShownPart(): (r: Option<Part>)
      requires Valid()
      reads this, nodes, closeUp
      ensures r.Some? <==> selectedModel.Some?
      ensures r.Some? ==> r.value.path == "/" + selectedModel.value + ".glb"
    {
      if selectedModel.None? then None else LookupPart(selectedModel.value)
    }

    /** Mounting: four fresh nodes with their initial refs, nothing selected. */
    constructor ()
      ensures Valid()
      ensures selectedModel == None && closeUp == null
      ensures forall i :: 0 <= i < |nodes| ==>
        fresh(nodes[i]) && !nodes[i].isDragging && nodes[i].startPointer == ORIGIN
    {
      var a := new ModelNode(SCENE[0]);
      var b := new ModelNode(SCENE[1]);
      var c := new ModelNode(SCENE[2]);
      var d := new ModelNode(SCENE[3]);
      nodes := [a, b, c, d];
      selectedModel := None;
      closeUp := null;
    }

    /** A pointer-down on `t`; only the node hit changes. */
    method Press(p: Point, t: Target)
      requires Valid() && Hittable(t)
      modifies nodes, closeUp
      ensures Valid()
      ensures t.SceneNode? ==>
        nodes[t.i].isDragging && nodes[t.i].startPointer == p
      ensures t.CloseUpNode? ==> closeUp.isDragging && closeUp.startPointer == p
      ensures forall j :: 0 <= j < |nodes| && t != SceneNode(j) ==>
        nodes[j].isDragging == old(nodes[j].isDragging) &&
        nodes[j].startPointer == old(nodes[j].startPointer)
      ensures closeUp != null && !t.CloseUpNode? ==>
        closeUp.isDragging == old(closeUp.isDragging) &&
        closeUp.startPointer == old(closeUp.startPointer)
    {
      match t {
        case Background =>
        case SceneNode(i) => nodes[i].PointerDown(p);
        case CloseUpNode => closeUp.PointerDown(p);
      }
    }

    /** `setSelectedModel(id)`. Opening the modal mounts a fresh close-up
        node; re-selecting while it is open keeps the mounted one. */
    method Select(id: string)
      requires Valid() && id in PARTS
      modifies this
      ensures Valid()
      ensures selectedModel == Some(id)
      ensures old(closeUp) == null ==>
        fresh(closeUp) && !closeUp.isDragging && closeUp.startPointer == ORIGIN
      ensures old(closeUp) != null ==> closeUp == old(closeUp)
    {
      if closeUp == null {
        closeUp := new ModelNode(CloseUpConfig(LookupPart(id).value.path));
      }
      selectedModel := Some(id);
    }

    /** The modal's Close button: clears the selection and unmounts the
        close-up node. */
    method Close()
      requires Valid()
      modifies this
      ensures Valid()
      ensures selectedModel == None && closeUp == null
    {
      selectedModel := None;
      closeUp := null;
    }

    /** A pointer-up on `t`, the one node under the pointer (if any). That
        node runs its handler first, which may select its part; then every
        mounted node's window listener ends its drag. No start point changes. */
    method Release(end: Point, t: Target)
      requires Valid() && Hittable(t)
      modifies this, nodes, closeUp
      ensures Valid()
      ensures selectedModel ==
        if t.SceneNode? && IsClick(old(nodes[t.i].startPointer), end, true)
        then SCENE[t.i].onClick
        else old(selectedModel)
      ensures forall j :: 0 <= j < |nodes| ==>
        !nodes[j].isDragging && nodes[j].startPointer == old(nodes[j].startPointer)
      ensures closeUp != null ==> !closeUp.isDragging
      ensures old(closeUp) != null ==>
        closeUp == old(closeUp) && closeUp.startPointer == old(closeUp.startPointer)
      ensures old(closeUp) == null && closeUp != null ==>
        fresh(closeUp) && closeUp.startPointer == ORIGIN
    {
      match t {
        case Background =>
        case SceneNode(i) =>
          var fired := nodes[i].PointerUp(end);
          if fired {
            Select(nodes[i].onClick.value);
          }
        case CloseUpNode =>
          var fired := closeUp.PointerUp(end);
          assert !fired;
      }
      var k := 0;
      while k < |nodes|
        modifies nodes
        invariant 0 <= k <= |nodes|
        invariant Valid()
        invariant selectedModel ==
          if t.SceneNode? && IsClick(old(nodes[t.i].startPointer), end, true)
          then SCENE[t.i].onClick
          else old(selectedModel)
        invariant forall j :: 0 <= j < k ==> !nodes[j].isDragging
        invariant forall j :: 0 <= j < |nodes| ==>
          nodes[j].startPointer == old(nodes[j].startPointer)
      {
        nodes[k].WindowPointerUp();
        k := k + 1;
      }
      if closeUp != null {
        closeUp.WindowPointerUp();
      }
    }
  }
}

/** The interaction scenarios of the part viewer, each stated on a freshly
    mounted page with its outcome proved. */
module PartViewerScenarios {
  import opened PartViewer

  /** Press the STM32 node at (100, 100) and release at (102, 101): the modal
      opens on the STM32 entry; closing it clears the selection. */
  method ClickOpensModal() returns (shown: Option<Part>, afterClose: Option<Part>)
    ensures shown.Some? && shown.value.name == "STM32 Microcontroller"
    ensures shown.value.path == "/stm32.glb"
    ensures afterClose == None
  {
    var page := new LCDViewer();
    page.Press(Point(100.0, 100.0), SceneNode(0));
    page.Release(Point(102.0, 101.0), SceneNode(0));
    assert page.selectedModel == Some("stm32");
    shown := page.ShownPart();
    page.Close();
    afterClose := page.ShownPart();
  }

  /** Press the LCD node at (100, 100) and release at (200, 100): a drag, so
      nothing is selected and the node is no longer dragging. */
  method DragSelectsNothing() returns (shown: Option<Part>, dragging: bool)
    ensures shown == None && !dragging
  {
    var page := new LCDViewer();
    page.Press(Point(100.0, 100.0), SceneNode(1));
    page.Release(Point(200.0, 100.0), SceneNode(1));
    shown := page.ShownPart();
    dragging := page.nodes[1].isDragging;
  }

  /** At the handler level, a release on a node that was never pressed is
      measured from the initial start point (0, 0): a release at (3, 4),
      distance exactly 5, is not a click. On the page the scene lies right of
      the label column, so no scene release lands that close to the origin. */
  method ReleaseWithoutPress() returns (shown: Option<Part>)
    ensures shown == None
  {
    var page := new LCDViewer();
    page.Release(Point(3.0, 4.0), SceneNode(2));
    shown := page.ShownPart();
  }

  /** The start point a node measures from is its last press, even when
      that press ended elsewhere: press the joystick at (500, 200), release
      over the background at (900, 200), press the background at (501, 200)
      and release on the joystick at (501, 201). The last step is 1 px along
      each axis (about 1.4 px) from the joystick's recorded start, so it
      selects the joystick. */
  method StaleStartSelects() returns (shown: Option<Part>)
    ensures shown.Some? && shown.value.name == "Potentiometer Joystick"
  {
    var page := new LCDViewer();
    page.Press(Point(500.0, 200.0), SceneNode(2));
    page.Release(Point(900.0, 200.0), Background);
    page.Press(Point(501.0, 200.0), Background);
    page.Release(Point(501.0, 201.0), SceneNode(2));
    shown := page.ShownPart();
  }
}
