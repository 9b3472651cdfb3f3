/**
 * The compositor's two pages of textures. While one frame is drawn into textures of
 * the current page, the other page holds those of the frame on show.
 */
module RendererPages {

  /** A texture, told apart from every other by its number. */
  datatype Texture = Texture(id: nat, width: nat, height: nat)

  datatype Layer = TextureLayer(texture: Texture) | PlatformLayer(view: int, mutations: seq<int>)

  function TexturesOf(layers: seq<Layer>): set<Texture> {
    set l | l in layers && l.TextureLayer? :: l.texture
  }

  class Page {
    var textures: seq<Texture>  // handed out, the latest first
    var unused: seq<Texture>

    constructor ()
      ensures textures == [] && unused == []
    {
      textures, unused := [], [];
    }
  }

  predicate HasSize(s: seq<Texture>, width: nat, height: nat) {
    exists k :: 0 <= k < |s| && s[k].width == width && s[k].height == height
  }

  /** Where the first texture of a size is, or the length of the list. */
  function FirstOfSize(s: seq<Texture>, width: nat, height: nat): (k: nat)
    ensures k <= |s|
    ensures k < |s| ==> s[k].width == width && s[k].height == height
    ensures forall i | 0 <= i < k :: s[i].width != width || s[i].height != height
  {
    if s == [] || (s[0].width == width && s[0].height == height) then 0 else 1 + FirstOfSize(s[1..], width, height)
  }

  function Elements(s: seq<Texture>): set<Texture> {
    set t | t in s
  }

  /** Every live texture is in exactly one of three places. */
  ghost predicate Places(live: set<Texture>, drawn: seq<Texture>, unused: seq<Texture>, shown: seq<Texture>) {
    multiset(live) == multiset(drawn) + multiset(unused) + multiset(shown)
  }

  lemma PlaceOf(live: set<Texture>, drawn: seq<Texture>, unused: seq<Texture>, shown: seq<Texture>, t: Texture)
    requires Places(live, drawn, unused, shown)
    ensures t in live <==> t in drawn || t in unused || t in shown
    ensures !(t in drawn && t in unused) && !(t in drawn && t in shown) && !(t in unused && t in shown)
  {
    assert multiset(live)[t] <= 1;
    assert t in live <==> t in multiset(live);
    assert (t in drawn <==> t in multiset(drawn)) && (t in unused <==> t in multiset(unused))
      && (t in shown <==> t in multiset(shown));
  }

  lemma PlacesDisjoint(live: set<Texture>, drawn: seq<Texture>, unused: seq<Texture>, shown: seq<Texture>)
    requires Places(live, drawn, unused, shown)
    ensures live == Elements(drawn) + Elements(unused) + Elements(shown)
    ensures Elements(drawn) !! Elements(unused) !! Elements(shown)
    ensures |live| == |drawn| + |unused| + |shown|
  {
    forall t ensures t in live <==> t in drawn || t in unused || t in shown { PlaceOf(live, drawn, unused, shown, t); }
    forall t ensures !(t in drawn && t in unused) && !(t in drawn && t in shown) && !(t in unused && t in shown) {
      PlaceOf(live, drawn, unused, shown, t);
    }
    assert |multiset(live)| == |live|;
  }

  /** What is live and not waiting is what was drawn. */
  lemma NotWaiting(textures: set<Texture>, live: set<Texture>, drawn: seq<Texture>, unused: seq<Texture>,
                   shown: seq<Texture>)
    requires Places(live, drawn, unused, shown)
    ensures (forall t | t in textures :: t in live && t !in unused) <==> textures <= Elements(drawn) + Elements(shown)
  {
    forall t | t in textures ensures t in live && t !in unused <==> t in Elements(drawn) + Elements(shown) {
      PlaceOf(live, drawn, unused, shown, t);
    }
  }

  lemma TakeUnused(live: set<Texture>, drawn: seq<Texture>, unused: seq<Texture>, shown: seq<Texture>, k: nat)
    requires Places(live, drawn, unused, shown) && k < |unused|
    ensures Places(live, [unused[k]] + drawn, unused[..k] + unused[k + 1..], shown)
  {
    assert unused == unused[..k] + [unused[k]] + unused[k + 1..];
    assert multiset(unused) == multiset(unused[..k] + unused[k + 1..]) + multiset{unused[k]};
    assert multiset([unused[k]] + drawn) == multiset{unused[k]} + multiset(drawn);
  }

  lemma AddDrawn(live: set<Texture>, drawn: seq<Texture>, unused: seq<Texture>, shown: seq<Texture>, t: Texture)
    requires Places(live, drawn, unused, shown) && t !in live
    ensures Places(live + {t}, [t] + drawn, unused, shown)
  {
    assert multiset(live + {t}) == multiset(live) + multiset{t};
    assert multiset([t] + drawn) == multiset{t} + multiset(drawn);
  }

  lemma DeleteFirst(live: set<Texture>, drawn: seq<Texture>, unused: seq<Texture>, shown: seq<Texture>)
    requires Places(live, drawn, unused, shown) && unused != []
    ensures Places(live - {unused[0]}, drawn, unused[1..], shown)
  {
    var t := unused[0];
    assert unused == [t] + unused[1..];
    assert multiset(live)[t] == 1;
    assert multiset(live - {t}) == multiset(live) - multiset{t};
  }

  lemma ChangePlaces(live: set<Texture>, drawn: seq<Texture>, shown: seq<Texture>, moved: seq<Texture>)
    requires Places(live, drawn, [], shown) && multiset(moved) == multiset(shown)
    ensures Places(live, [], moved, drawn) && Elements(moved) == Elements(shown)
  {
    forall t ensures t in moved <==> t in shown {
      assert t in moved <==> t in multiset(moved);
      assert t in shown <==> t in multiset(shown);
    }
  }

  /** A layer shows the store at some place in the list of this frame's, or a platform
      view where there is no such store. */
  datatype Action = Create(width: nat, height: nat) | Present(picks: seq<nat>)

  function Picked(stores: seq<Texture>, picks: seq<nat>): (layers: seq<Layer>)
    ensures |layers| == |picks|
  {
    if picks == [] then []
    else
      var layer := if picks[0] < |stores| then TextureLayer(stores[picks[0]]) else PlatformLayer(picks[0], []);
      [layer] + Picked(stores, picks[1..])
  }

  lemma {:induction false} PickedAreDrawn(stores: seq<Texture>, picks: seq<nat>)
    ensures TexturesOf(Picked(stores, picks)) <= Elements(stores)
  {
    if picks != [] {
      PickedAreDrawn(stores, picks[1..]);
      var layers := Picked(stores, picks);
      assert layers == [layers[0]] + Picked(stores, picks[1..]);
      forall t | t in TexturesOf(layers) ensures t in Elements(stores) {
        if layers[0] != TextureLayer(t) { assert t in TexturesOf(Picked(stores, picks[1..])); }
      }
    }
  }

  lemma NoElements()
    ensures Elements([]) == {}
  {
  }

  // ---------------------------------------------------------------- the pages as a value

  /** How many textures were ever made, the scene, this frame's stores, what waits on the
      page they are taken from, and the stores of the frame before. */
  datatype State = State(born: nat, scene: seq<Layer>, drawn: seq<Texture>, unused: seq<Texture>, shown: seq<Texture>)

  function Stored(s: State, width: nat, height: nat): State {
    var k := FirstOfSize(s.unused, width, height);
    if k < |s.unused| then
      s.(drawn := [s.unused[k]] + s.drawn, unused := s.unused[..k] + s.unused[k + 1..])
    else
      s.(drawn := [Texture(s.born, width, height)] + s.drawn, born := s.born + 1)
  }

  function Presented(s: State, layers: seq<Layer>): State {
    State(s.born, layers, [], Reversed(s.shown), s.drawn)
  }

  function Reversed<T>(s: seq<T>): seq<T> {
    if s == [] then [] else Reversed(s[1..]) + [s[0]]
  }

  lemma {:induction false} ReversedElements<T>(s: seq<T>)
    ensures multiset(Reversed(s)) == multiset(s)
  {
    if s != [] {
      ReversedElements(s[1..]);
      assert s == [s[0]] + s[1..];
    }
  }

  function Step(s: State, a: Action): State {
    match a
    case Create(width, height) => Stored(s, width, height)
    case Present(picks) => Presented(s, Picked(s.drawn, picks))
  }

  function After(s: State, actions: seq<Action>): State
    decreases |actions|
  {
    if actions == [] then s else After(Step(s, actions[0]), actions[1..])
  }

  // ---------------------------------------------------------------- frames

  datatype Size = Size(width: nat, height: nat)

  function SizesOf(s: seq<Texture>): seq<Size> {
    if s == [] then [] else [Size(s[0].width, s[0].height)] + SizesOf(s[1..])
  }

  function Creates(sizes: seq<Size>): seq<Action> {
    if sizes == [] then [] else [Create(sizes[0].width, sizes[0].height)] + Creates(sizes[1..])
  }

  lemma {:induction false} SizesSplit(a: seq<Texture>, b: seq<Texture>)
    ensures SizesOf(a + b) == SizesOf(a) + SizesOf(b)
  {
    if a == [] {
      assert a + b == b;
    } else {
      assert (a + b)[1..] == a[1..] + b;
      SizesSplit(a[1..], b);
    }
  }

  lemma {:induction false} SizeWaits(s: seq<Texture>, z: Size)
    ensures FirstOfSize(s, z.width, z.height) < |s| <==> z in SizesOf(s)
  {
    if s != [] { SizeWaits(s[1..], z); }
  }

  lemma SizesWithout(s: seq<Texture>, k: nat)
    requires k < |s|
    ensures multiset(SizesOf(s)) ==
      multiset(SizesOf(s[..k] + s[k + 1..])) + multiset{Size(s[k].width, s[k].height)}
  {
    assert s == s[..k] + ([s[k]] + s[k + 1..]);
    SizesSplit(s[..k], [s[k]] + s[k + 1..]);
    SizesSplit([s[k]], s[k + 1..]);
    SizesSplit(s[..k], s[k + 1..]);
  }

  /** A frame's stores have the sizes asked for, the last first, and exactly those sizes
      that do not wait on the page, counted with repetition, take a new texture: a page
      that waits with a frame's sizes is used again for it. */
  lemma {:induction false} FrameTakes(s: State, sizes: seq<Size>)
    ensures var t := After(s, Creates(sizes));
      && SizesOf(t.drawn) == Reversed(sizes) + SizesOf(s.drawn)
      && t.born == s.born + |multiset(sizes) - multiset(SizesOf(s.unused))|
      && t.scene == s.scene && t.shown == s.shown
    decreases |sizes|
  {
    hide FirstOfSize, SizesOf;
    if sizes == [] {
      assert Reversed(sizes) + SizesOf(s.drawn) == SizesOf(s.drawn);
    } else {
      var z := sizes[0];
      var k := FirstOfSize(s.unused, z.width, z.height);
      var next := Stored(s, z.width, z.height);
      FrameTakes(next, sizes[1..]);
      assert Creates(sizes)[1..] == Creates(sizes[1..]);
      TakesOne(s, z);
      assert Reversed(sizes[1..]) + ([z] + SizesOf(s.drawn)) == Reversed(sizes) + SizesOf(s.drawn);
      assert sizes == [z] + sizes[1..];
      NewOnes(multiset(sizes[1..]), multiset(SizesOf(s.unused)), z);
    }
  }

  lemma TakesOne(s: State, z: Size)
    ensures var t := Stored(s, z.width, z.height);
      var waiting := multiset(SizesOf(s.unused));
      && SizesOf(t.drawn) == [z] + SizesOf(s.drawn)
      && t.born == s.born + (if z in waiting then 0 else 1)
      && multiset(SizesOf(t.unused)) == waiting - multiset{z}
  {
    hide FirstOfSize;
    var k := FirstOfSize(s.unused, z.width, z.height);
    SizeWaits(s.unused, z);
    assert z in SizesOf(s.unused) <==> z in multiset(SizesOf(s.unused));
    if k < |s.unused| { SizesWithout(s.unused, k); }
  }

  lemma NewOnes(rest: multiset<Size>, waiting: multiset<Size>, z: Size)
    ensures |(multiset{z} + rest) - waiting| ==
      (if z in waiting then 0 else 1) + |rest - (waiting - multiset{z})|
  {
    if z in waiting {
      assert (multiset{z} + rest) - waiting == rest - (waiting - multiset{z});
    } else {
      assert (multiset{z} + rest) - waiting == multiset{z} + (rest - waiting);
      assert waiting - multiset{z} == waiting;
    }
  }

  class Renderer {
    const page0: Page
    const page1: Page
    var currentPage: nat
    var scene: seq<Layer>
    var born: nat
    ghost var live: set<Texture>    // created and not deleted
    ghost var drawn: seq<Texture>   // handed out since the last present, the latest first
    ghost var shown: seq<Texture>   // handed out in the frame before

    constructor ()
      ensures Valid() && Safe() && live == {} && drawn == [] && shown == []
      ensures fresh(page0) && fresh(page1)
    {
      page0 := new Page();
      page1 := new Page();
      currentPage, scene, born := 0, [], 0;
      live, drawn, shown := {}, [], [];
    }

    function Current(): Page
      reads this
    {
      if currentPage == 0 then page0 else page1
    }

    function Other(): Page
      reads this
    {
      if currentPage == 0 then page1 else page0
    }

    /** Every live texture is in exactly one place: handed out in this frame, waiting on
        the current page, or handed out in the frame before. */
    ghost predicate Valid()
      reads this, page0, page1
    {
      && page0 != page1 && currentPage < 2
      && Current().textures == drawn && Other().textures == shown && Other().unused == []
      && Places(live, drawn, Current().unused, shown)
      && forall t | t in live :: t.id < born
    }

    /** Nothing the scene shows is deleted or may be handed out for drawing. */
    ghost predicate Safe()
      reads this, page0, page1
    {
      forall t | t in TexturesOf(scene) :: t in live && t !in Current().unused
    }

    ghost function View(): State
      reads this, page0, page1
    {
      State(born, scene, drawn, Current().unused, shown)
    }

    /** The first unused texture of the size asked for. */
    method FindUnused(width: nat, height: nat) returns (found: bool, k: nat)
      ensures k == FirstOfSize(Current().unused, width, height)
      ensures found <==> k < |Current().unused|
      ensures found <==> HasSize(Current().unused, width, height)
    {
      var unused := Current().unused;
      k := 0;
      while k < |unused|
        invariant k <= |unused|
        invariant FirstOfSize(unused, width, height) == k + FirstOfSize(unused[k..], width, height)
      {
        if unused[k].width == width && unused[k].height == height { return true, k; }
        k := k + 1;
      }
      found := false;
    }

    /** A texture of the size asked for, which nothing else uses: an unused one of this
        page, or a new one exactly when the page has none of that size. */
    method CreateBackingStore(width: nat, height: nat) returns (t: Texture)
      requires Valid()
      modifies this`born, this`live, this`drawn, page0, page1
      ensures Valid() && (old(Safe()) ==> Safe() && t !in TexturesOf(scene))
      ensures t.width == width && t.height == height
      ensures t !in old(drawn) && t !in shown && t in live
      ensures View() == Stored(old(View()), width, height) && drawn == [t] + old(drawn)
      ensures old(live) <= live == old(live) + {t}
      ensures t in old(live) <==> HasSize(old(Current().unused), width, height)
      ensures forall u | u in Current().unused :: u in old(Current().unused)
    {
      hide Places, HasSize, FirstOfSize;
      var page := Current();
      var found, k := FindUnused(width, height);
      if found {
        TakeUnused(live, drawn, page.unused, shown, k);
        t := page.unused[k];
        PlaceOf(live, drawn, page.unused, shown, t);
        page.unused := page.unused[..k] + page.unused[k + 1..];
      } else {
        t := Texture(born, width, height);
        PlaceOf(live, drawn, page.unused, shown, t);
        AddDrawn(live, drawn, page.unused, shown, t);
        born := born + 1;
        live := live + {t};
      }
      page.textures := [t] + page.textures;
      drawn := [t] + drawn;
    }

    /** Deletes the textures the current page has no use for. */
    method DeleteUnused()
      requires Valid()
      modifies this`live, Current()`unused
      ensures Valid() && Current().unused == []
      ensures live <= old(live)
    {
      hide Places;
      var page := Current();
      while page.unused != []
        invariant Valid() && live <= old(live)
        invariant currentPage == old(currentPage) && drawn == old(drawn) && shown == old(shown)
        decreases |page.unused|
      {
        DeleteFirst(live, drawn, page.unused, shown);
        live := live - {page.unused[0]};
        page.unused := page.unused[1..];
      }
    }

    /** What the other page showed becomes unused there. */
    method RetireShown()
      requires Other().unused == [] && page0 != page1
      modifies Other()
      ensures Other().textures == [] && Other().unused == Reversed(old(Other().textures))
    {
      var last := Other();
      while last.textures != []
        invariant Reversed(last.textures) + last.unused == Reversed(old(Other().textures))
        decreases |last.textures|
      {
        last.unused := [last.textures[0]] + last.unused;
        last.textures := last.textures[1..];
      }
    }

    /** Shows the layers; deletes what the current page did not use again; what the other
        page showed until now becomes unused; and the pages change places. */
    method PresentLayers(layers: seq<Layer>)
      requires Valid()
      modifies this, page0, page1
      ensures Valid() && scene == layers && drawn == [] && shown == old(drawn)
      ensures View() == Presented(old(View()), layers)
      ensures live == Elements(old(drawn)) + Elements(old(shown))
      ensures |live| == |old(drawn)| + |old(shown)|
      ensures Safe() <==> TexturesOf(layers) <= Elements(old(drawn))
      ensures old(Safe()) ==> TexturesOf(old(scene)) <= live
    {
      hide Places, TexturesOf, Elements, Reversed;
      NotWaiting(TexturesOf(scene), live, drawn, Current().unused, shown);
      scene := layers;
      DeleteUnused();
      PlacesDisjoint(live, drawn, [], shown);
      ReversedElements(shown);
      RetireShown();
      ChangePlaces(live, drawn, shown, Other().unused);
      currentPage := if currentPage == 0 then 1 else 0;
      drawn, shown := [], drawn;
      NotWaiting(TexturesOf(scene), live, drawn, Current().unused, shown);
      NoElements();
    }

    /** Stores are created and presented, each layer naming one made for this frame: the
        scene stays safe, and pages and scene are what the steps make of them. */
    method RunAll(actions: seq<Action>)
      requires Valid() && Safe()
      modifies this, page0, page1
      ensures Valid() && Safe() && View() == After(old(View()), actions)
    {
      ghost var was := View();
      assert actions[0..] == actions;
      var i := 0;
      while i < |actions|
        invariant i <= |actions| && Valid() && Safe()
        invariant After(View(), actions[i..]) == After(was, actions)
      {
        hide Valid, Safe, Step;
        assert actions[i..][1..] == actions[i + 1..];
        Do(actions[i]);
        i := i + 1;
      }
    }

    method Do(a: Action)
      requires Valid() && Safe()
      modifies this, page0, page1
      ensures Valid() && Safe() && View() == Step(old(View()), a)
    {
      hide Places, TexturesOf, Elements;
      match a {
        case Create(width, height) => var _ := CreateBackingStore(width, height);
        case Present(picks) =>
          var layers := Picked(Current().textures, picks);
          PickedAreDrawn(Current().textures, picks);
          PresentLayers(layers);
      }
    }
  }

  /** A scene that keeps showing a store of an earlier frame: the store is handed out and
      drawn over while it is shown, */
  method DrawnOverWhileShown(width: nat, height: nat) returns (r: Renderer, t: Texture)
    ensures fresh(r) && r.Valid() && TextureLayer(t) in r.scene && t in r.drawn
  {
    r, t := ShownTwice(width, height);
    assert FirstOfSize(r.View().unused, width, height) == 0;
    var again := r.CreateBackingStore(width, height);
    assert r.View().drawn == [t];
  }

  /** or deleted, if the frame after takes no store of its size. */
  method DeletedWhileShown(width: nat, height: nat) returns (r: Renderer, t: Texture)
    ensures fresh(r) && r.Valid() && TextureLayer(t) in r.scene && t !in r.live
  {
    r, t := ShownTwice(width, height);
    r.PresentLayers([TextureLayer(t)]);
  }

  method ShownTwice(width: nat, height: nat) returns (r: Renderer, t: Texture)
    ensures fresh(r) && fresh(r.page0) && fresh(r.page1) && r.Valid()
    ensures t.width == width && t.height == height
    ensures r.scene == [TextureLayer(t)] && r.drawn == [] && r.shown == [] && r.Current().unused == [t]
  {
    r := new Renderer();
    t := r.CreateBackingStore(width, height);
    assert r.View().drawn == [t] && r.View().shown == [];
    r.PresentLayers([TextureLayer(t)]);
    assert r.View().shown == [t];
    r.PresentLayers([TextureLayer(t)]);
    assert Reversed([t]) == [t];
  }
}
