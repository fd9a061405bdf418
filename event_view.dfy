/** The event theming view: four theme settings (font, flyer aspect ratio,
    padding, background gradient) kept in the page's URL query string. A
    settings change rewrites one query parameter; an effect copies the query
    parameters back into the settings.

    The query string is an ordered list of name/value pairs, as the URL
    standard's `URLSearchParams` keeps it. The aspect ratio is one of the
    three ratios the menu offers. */
module Event {
  import opened Base

  // ---------------------------------------------------------------------
  // Query parameters
  // ---------------------------------------------------------------------

  datatype Param = Param(name: string, value: string)

  type SearchParams = seq<Param>

  /** `get(name)`: the value of the first pair with that name. */
  function Get(q: SearchParams, name: string): (r: Option<string>)
    ensures r.None? <==> forall i :: 0 <= i < |q| ==> q[i].name != name
    ensures r.Some? ==> Param(name, r.value) in q
  {
    if q == [] then None
    else if q[0].name == name then Some(q[0].value)
    else
      assert forall i :: 1 <= i < |q| ==> q[i] == q[1..][i - 1];
      Get(q[1..], name)
  }

  /** `get` returns the value of the first pair with the name: no earlier
      pair has it. */
  lemma {:induction false} GetIsFirst(q: SearchParams, name: string)
    requires Get(q, name).Some?
    ensures exists i :: 0 <= i < |q| && q[i] == Param(name, Get(q, name).value)
                        && forall j :: 0 <= j < i ==> q[j].name != name
  {
    if q[0].name != name {
      GetIsFirst(q[1..], name);
      var i :| 0 <= i < |q[1..]| && q[1..][i] == Param(name, Get(q, name).value)
               && forall j :: 0 <= j < i ==> q[1..][j].name != name;
      assert q[i + 1] == q[1..][i];
      forall j | 0 <= j < i + 1
        ensures q[j].name != name
      {
        if j > 0 {
          assert q[j] == q[1..][j - 1];
        }
      }
    } else {
      assert q[0] == Param(name, Get(q, name).value);
    }
  }

  /** The pairs of `q` not named `name`, in order. */
  function Others(q: SearchParams, name: string): (r: SearchParams)
    ensures |r| <= |q|
    ensures Get(r, name) == None
    ensures forall m :: m != name ==> Get(r, m) == Get(q, m)
    ensures forall i :: 0 <= i < |r| ==> r[i].name != name
  {
    if q == [] then []
    else if q[0].name == name then
      assert forall m :: m != name ==> Get(q, m) == Get(q[1..], m);
      Others(q[1..], name)
    else
      var r := [q[0]] + Others(q[1..], name);
      assert r[1..] == Others(q[1..], name);
      assert forall m :: m != name && m != q[0].name ==> Get(q, m) == Get(q[1..], m) && Get(r, m) == Get(r[1..], m);
      r
  }

  /** Dropping a name that no pair has changes nothing. */
  lemma {:induction false} OthersOfOthers(q: SearchParams, name: string)
    requires forall i :: 0 <= i < |q| ==> q[i].name != name
    ensures Others(q, name) == q
  {
    if q != [] {
      OthersOfOthers(q[1..], name);
    }
  }

  /** The first pair named `name` gets `value`; the later ones go. */
  function ReplaceFirst(q: SearchParams, name: string, value: string): (r: SearchParams)
    requires Get(q, name).Some?
    ensures Get(r, name) == Some(value)
    ensures forall m :: m != name ==> Get(r, m) == Get(q, m)
    ensures Others(r, name) == Others(q, name)
    ensures |r| == |Others(r, name)| + 1
  {
    if q[0].name == name then
      var r := [Param(name, value)] + Others(q[1..], name);
      assert r[1..] == Others(q[1..], name);
      OthersOfOthers(Others(q[1..], name), name);
      r
    else
      var r := [q[0]] + ReplaceFirst(q[1..], name, value);
      assert r[1..] == ReplaceFirst(q[1..], name, value);
      r
  }

  /** The index of the first pair named `name`. */
  function FirstIndex(q: SearchParams, name: string): (i: nat)
    requires Get(q, name).Some?
    ensures i < |q| && q[i].name == name
    ensures forall j :: 0 <= j < i ==> q[j].name != name
  {
    if q[0].name == name then 0 else 1 + FirstIndex(q[1..], name)
  }

  /** The written pair takes the place of the first old pair with the name. */
  lemma {:induction false} ReplaceFirstInPlace(q: SearchParams, name: string, value: string)
    requires Get(q, name).Some?
    ensures ReplaceFirst(q, name, value)
            == q[..FirstIndex(q, name)] + [Param(name, value)] + Others(q[FirstIndex(q, name) + 1..], name)
  {
    var p := Param(name, value);
    var i := FirstIndex(q, name);
    if q[0].name == name {
      assert i == 0;
      assert ReplaceFirst(q, name, value) == [p] + Others(q[1..], name);
      assert q[..i] + [p] == [p];
      assert q[i + 1..] == q[1..];
    } else {
      var k := FirstIndex(q[1..], name);
      var tail := Others(q[1..][k + 1..], name);
      ReplaceFirstCons(q, name, value);
      ReplaceFirstInPlace(q[1..], name, value);
      ConsSplit(q, k, p, tail);
      assert i == k + 1;
      assert ReplaceFirst(q, name, value) == q[..i] + [p] + tail;
      assert tail == Others(q[i + 1..], name);
    }
  }

  /** One step of `ReplaceFirst` and `FirstIndex` past a pair with another name. */
  lemma ReplaceFirstCons(q: SearchParams, name: string, value: string)
    requires Get(q, name).Some? && q[0].name != name
    ensures Get(q[1..], name).Some?
    ensures ReplaceFirst(q, name, value) == [q[0]] + ReplaceFirst(q[1..], name, value)
    ensures FirstIndex(q, name) == FirstIndex(q[1..], name) + 1
  {
  }

  lemma ConsSplit(q: SearchParams, k: nat, p: Param, tail: SearchParams)
    requires k + 1 < |q|
    ensures [q[0]] + (q[1..][..k] + [p] + tail) == q[..k + 1] + [p] + tail
    ensures q[1..][k + 1..] == q[k + 2..]
  {
    assert q[..k + 1] == [q[0]] + q[1..][..k];
  }

  lemma {:induction false} AppendParam(q: SearchParams, p: Param)
    requires Get(q, p.name).None?
    ensures Get(q + [p], p.name) == Some(p.value)
    ensures forall m :: m != p.name ==> Get(q + [p], m) == Get(q, m)
    ensures Others(q + [p], p.name) == Others(q, p.name)
    ensures |q + [p]| == |Others(q + [p], p.name)| + 1
  {
    if q != [] {
      assert (q + [p])[1..] == q[1..] + [p];
      AppendParam(q[1..], p);
    } else {
      assert Others([p], p.name) == [] + Others([], p.name);
    }
  }

  /** `URLSearchParams.set(name, value)`, the core of `createQueryString`:
      afterwards `name` has exactly the one value `value`, every other name
      reads as before, and the pairs of other names keep their order. */
  function SetParam(q: SearchParams, name: string, value: string): (r: SearchParams)
    ensures Get(r, name) == Some(value)
    ensures forall m :: m != name ==> Get(r, m) == Get(q, m)
    ensures Others(r, name) == Others(q, name)
    ensures |r| == |Others(r, name)| + 1
    ensures Get(q, name).None? ==> r == q + [Param(name, value)]
    ensures Get(q, name).Some? ==>
              exists i :: 0 <= i < |q| && q[i].name == name && (forall j :: 0 <= j < i ==> q[j].name != name) &&
                          r == q[..i] + [Param(name, value)] + Others(q[i + 1..], name)
  {
    if Get(q, name).Some? then
      ReplaceFirstInPlace(q, name, value);
      ReplaceFirst(q, name, value)
    else
      AppendParam(q, Param(name, value));
      q + [Param(name, value)]
  }

  /** `searchParams.get(name)` read as a condition: present and not the
      empty string. */
  function Present(q: SearchParams, name: string): Option<string> {
    match Get(q, name)
    case Some(v) => if v != "" then Some(v) else None
    case None => None
  }

  // ---------------------------------------------------------------------
  // Settings
  // ---------------------------------------------------------------------

  /** The three ratios of the aspect-ratio menu: 9:16, 4:5 and 1:1. */
  datatype AspectRatio = Ratio9x16 | Ratio4x5 | Ratio1x1

  /** The menu's value for a ratio, which is also the number's `toString()`. */
  function RatioValue(r: AspectRatio): string {
    match r
    case Ratio9x16 => "0.5625"
    case Ratio4x5 => "0.8"
    case Ratio1x1 => "1"
  }

  /** The ratio a menu value stands for. */
  function ParseRatio(s: string): (r: Option<AspectRatio>)
    ensures r.Some? ==> RatioValue(r.value) == s
    ensures forall a :: RatioValue(a) == s ==> r == Some(a)
  {
    if s == "0.5625" then Some(Ratio9x16)
    else if s == "0.8" then Some(Ratio4x5)
    else if s == "1" then Some(Ratio1x1)
    else None
  }

  /** `value.toString()` on the padding switch's boolean. */
  function BoolString(b: bool): string {
    if b then "true" else "false"
  }

  datatype Settings = Settings(font: string, ratio: AspectRatio, addPadding: bool, gradient: string)

  const FontKey: string := "font"
  const RatioKey: string := "aspectRatio"
  const PaddingKey: string := "addPadding"
  const GradientKey: string := "gradient"

  /** The initial settings: no font, 4:5, no padding, the "posh-theme"
      gradient. */
  const DefaultSettings: Settings := Settings("", Ratio4x5, false, GradientOptions["posh-theme"].id)

  /** The settings after the query-string effect: each setting whose
      parameter is present and non-empty takes it, every other setting keeps
      its value. */
  function Synced(s: Settings, q: SearchParams): (r: Settings)
    ensures Present(q, FontKey).None? ==> r.font == s.font
    ensures Present(q, FontKey).Some? ==> r.font == Present(q, FontKey).value
    ensures Present(q, RatioKey).None? ==> r.ratio == s.ratio
    ensures Present(q, RatioKey).Some? && ParseRatio(Present(q, RatioKey).value).Some? ==>
              r.ratio == ParseRatio(Present(q, RatioKey).value).value
    ensures Present(q, PaddingKey).None? ==> r.addPadding == s.addPadding
    ensures Present(q, PaddingKey).Some? ==> r.addPadding == (Present(q, PaddingKey).value == "true")
    ensures Present(q, GradientKey).None? ==> r.gradient == s.gradient
    ensures Present(q, GradientKey).Some? ==> r.gradient == Present(q, GradientKey).value
  {
    var font := Present(q, FontKey);
    var ratio := Present(q, RatioKey);
    var padding := Present(q, PaddingKey);
    var gradient := Present(q, GradientKey);
    Settings(
      if font.Some? then font.value else s.font,
      if ratio.Some? && ParseRatio(ratio.value).Some? then ParseRatio(ratio.value).value else s.ratio,
      if padding.Some? then padding.value == "true" else s.addPadding,
      if gradient.Some? then gradient.value else s.gradient)
  }

  /** Running the effect again on the same query string changes nothing. */
  lemma SyncedIdempotent(s: Settings, q: SearchParams)
    ensures Synced(Synced(s, q), q) == Synced(s, q)
  {
  }

  /** A non-empty font name written through `handleItemChange` is read back. */
  lemma FontRoundTrip(s: Settings, q: SearchParams, font: string)
    requires font != ""
    ensures Synced(s, SetParam(q, FontKey, font)).font == font
  {
  }

  /** A non-empty gradient id written through `handleItemChange` is read back. */
  lemma GradientRoundTrip(s: Settings, q: SearchParams, gradient: string)
    requires gradient != ""
    ensures Synced(s, SetParam(q, GradientKey, gradient)).gradient == gradient
  {
  }

  /** A menu ratio written through `handleItemChange` is read back. */
  lemma RatioRoundTrip(s: Settings, q: SearchParams, ratio: AspectRatio)
    ensures Synced(s, SetParam(q, RatioKey, RatioValue(ratio))).ratio == ratio
  {
  }

  /** The padding switch's `toString()` is read back by the `== "true"`
      comparison. */
  lemma PaddingRoundTrip(s: Settings, q: SearchParams, b: bool)
    ensures Synced(s, SetParam(q, PaddingKey, BoolString(b))).addPadding == b
  {
  }

  /** From settings already in step with the query string, writing one
      parameter changes at most the setting of that name. */
  lemma ItemChangeKeepsOtherSettings(s: Settings, q: SearchParams, name: string, value: string)
    ensures var before := Synced(s, q);
            var after := Synced(before, SetParam(q, name, value));
            && (name != FontKey ==> after.font == before.font)
            && (name != RatioKey ==> after.ratio == before.ratio)
            && (name != PaddingKey ==> after.addPadding == before.addPadding)
            && (name != GradientKey ==> after.gradient == before.gradient)
  {
    var q' := SetParam(q, name, value);
    assert name != FontKey ==> Present(q', FontKey) == Present(q, FontKey);
    assert name != RatioKey ==> Present(q', RatioKey) == Present(q, RatioKey);
    assert name != PaddingKey ==> Present(q', PaddingKey) == Present(q, PaddingKey);
    assert name != GradientKey ==> Present(q', GradientKey) == Present(q, GradientKey);
  }

  // ---------------------------------------------------------------------
  // Backgrounds and flyer images
  // ---------------------------------------------------------------------

  /** The animated overlay components. */
  datatype Overlay = Particle | Glass | Pixels | NeonIsometricMaze | Waves

  /** A "static" option carries CSS classes, a "dynamic" one an overlay. */
  datatype Background = Static(classNames: string) | Dynamic(overlay: Overlay)

  datatype GradientOption = GradientOption(id: string, name: string, background: Background)

  /** `gradientOptions`. */
  const GradientOptions: map<string, GradientOption> := map[
    "posh-theme" := GradientOption("posh-theme", "Posh Theme", Static(
      "bg-gradient-to-t from-event-theme-gradient-from via-event-theme-gradient-via via-26% to-event-theme-gradient-to to-83%")),
    "none" := GradientOption("none", "None", Static("bg-background")),
    "blue-green" := GradientOption("blue-green", "Blue to Green", Static("bg-gradient-to-t from-blue-500 to-green-500")),
    "radial" := GradientOption("radial", "Radial Gradient", Static(
      "[background:radial-gradient(125%_125%_at_50%_10%,#000_40%,#63e_100%)]")),
    "particle" := GradientOption("particle", "Particle", Dynamic(Particle)),
    "glass" := GradientOption("glass", "Glass", Dynamic(Glass)),
    "pixels" := GradientOption("pixels", "Pixels", Dynamic(Pixels)),
    "neon-isometric-maze" := GradientOption("neon-isometric-maze", "Neon Isometric Maze", Dynamic(NeonIsometricMaze)),
    "waves" := GradientOption("waves", "Waves", Dynamic(Waves))
  ]

  /** Every option is filed under its own id, and the default is one of them. */
  lemma GradientOptionsKeyedById()
    ensures forall k :: k in GradientOptions ==> GradientOptions[k].id == k
    ensures DefaultSettings.gradient in GradientOptions
    ensures forall o :: o in GradientOptions.Values ==> o.id in GradientOptions && GradientOptions[o.id] == o
  {
  }

  /** The page renders `gradientOptions[selectedGradient]` unchecked, so the
      lookup is defined only while the gradient stays a key. The effect keeps
      it one as long as the query string names only listed gradients. */
  lemma SyncedGradientListed(s: Settings, q: SearchParams)
    requires s.gradient in GradientOptions
    requires Present(q, GradientKey).None? || Present(q, GradientKey).value in GradientOptions
    ensures Synced(s, q).gradient in GradientOptions
  {
  }

  /** A shared link with an unlisted gradient id leaves the page with a
      gradient that is not a key of `gradientOptions`. */
  lemma UnlistedGradientFromLink()
    ensures Synced(DefaultSettings, [Param(GradientKey, "sunset")]).gradient !in GradientOptions
  {
    assert Present([Param(GradientKey, "sunset")], GradientKey) == Some("sunset");
  }

  /** A flyer image and the ratio at which it is shown. */
  datatype Flyer = Flyer(src: string, ratio: AspectRatio)

  /** The three flyer images, in page order. */
  const Flyers: seq<Flyer> := [
    Flyer("/flyer-1x1.webp", Ratio1x1),
    Flyer("/flyer-4x5.webp", Ratio4x5),
    Flyer("/flyer-9x16.webp", Ratio9x16)
  ]

  /** The images whose class list gets "block" at ratio `r` (the others stay
      "hidden"). */
  function VisibleFlyers(images: seq<Flyer>, r: AspectRatio): seq<string> {
    if images == [] then []
    else (if images[0].ratio == r then [images[0].src] else []) + VisibleFlyers(images[1..], r)
  }

  /** At each menu ratio exactly one flyer image is visible, the one made for
      that ratio. */
  lemma ExactlyOneFlyerVisible(r: AspectRatio)
    ensures |VisibleFlyers(Flyers, r)| == 1
    ensures exists i :: 0 <= i < |Flyers| && Flyers[i].ratio == r && VisibleFlyers(Flyers, r) == [Flyers[i].src]
  {
    assert Flyers[1..][1..][1..] == [];
    match r
    case Ratio1x1 =>
      assert VisibleFlyers(Flyers, r) == [Flyers[0].src];
    case Ratio4x5 =>
      assert VisibleFlyers(Flyers, r) == [Flyers[1].src];
    case Ratio9x16 =>
      assert VisibleFlyers(Flyers, r) == [Flyers[2].src];
  }

  // ---------------------------------------------------------------------
  // The view component
  // ---------------------------------------------------------------------

  /** The view's four theme-setting fields and the URL query string it
      reads them from. */
  class EventView {
    var selectedFont: string
    var aspectRatio: AspectRatio
    var addPadding: bool
    var selectedGradient: string
    var searchParams: SearchParams

    /** The view as first rendered at a URL with query string `url`, before
        the effect has run. */
    constructor (url: SearchParams)
      ensures Current() == DefaultSettings && searchParams == url
    {
      selectedFont := "";
      aspectRatio := Ratio4x5;
      addPadding := false;
      selectedGradient := GradientOptions["posh-theme"].id;
      searchParams := url;
    }

    function Current(): Settings
      reads this
    {
      Settings(selectedFont, aspectRatio, addPadding, selectedGradient)
    }

    /** The effect on `searchParams`: each present, non-empty parameter
        overwrites its setting. */
    method SyncFromSearchParams()
      modifies this
      ensures Current() == Synced(old(Current()), searchParams)
      ensures searchParams == old(searchParams)
    {
      var font := Present(searchParams, FontKey);
      if font.Some? {
        selectedFont := font.value;
      }
      var ratio := Present(searchParams, RatioKey);
      if ratio.Some? {
        var parsed := ParseRatio(ratio.value);
        if parsed.Some? {
          aspectRatio := parsed.value;
        }
      }
      var padding := Present(searchParams, PaddingKey);
      if padding.Some? {
        addPadding := padding.value == "true";
      }
      var gradient := Present(searchParams, GradientKey);
      if gradient.Some? {
        selectedGradient := gradient.value;
      }
    }

    /** `handleItemChange(name, value)`: navigate to the query string that
        `createQueryString` builds, after which the effect runs on it. */
    method HandleItemChange(name: string, value: string)
      modifies this
      ensures searchParams == SetParam(old(searchParams), name, value)
      ensures Current() == Synced(old(Current()), searchParams)
    {
      searchParams := SetParam(searchParams, name, value);
      SyncFromSearchParams();
    }

    /** `gradientOptions[selectedGradient]`, which the page reads without a
        check. */
    function Gradient(): (g: GradientOption)
      reads this
      requires selectedGradient in GradientOptions
      ensures g in GradientOptions.Values && g.id == selectedGradient
    {
      GradientOptionsKeyedById();
      GradientOptions[selectedGradient]
    }

    /** The flyer images shown at the current ratio. */
    function ShownFlyers(): (srcs: seq<string>)
      reads this
      ensures |srcs| == 1
      ensures exists i :: 0 <= i < |Flyers| && Flyers[i].ratio == aspectRatio && srcs == [Flyers[i].src]
    {
      ExactlyOneFlyerVisible(aspectRatio);
      VisibleFlyers(Flyers, aspectRatio)
    }
  }
}
