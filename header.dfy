/**
 * The site header: the accessibility controls (font-size stepper, high-contrast
 * toggle), the dark/light theme button and the highlighting of the navigation
 * link of the current route. The handlers write the state of the component and,
 * beside it, the root element of the document (`document.documentElement`),
 * which outlives the component and is the class `DocumentRoot` here.
 */
module Header {
  import opened Wrappers
  import JsString

  const DefaultFontSize: nat := 16
  const MinFontSize: nat := 12
  const MaxFontSize: nat := 24
  const FontStep: nat := 2
  const HighContrastClass := "high-contrast"

  /** The sizes the stepper can show: the even sizes from 12 to 24. */
  predicate ReachableSize(size: int) {
    MinFontSize <= size <= MaxFontSize && size % 2 == 0
  }

  /** The guarded update of `increaseFontSize`. */
  function Increased(size: nat): (r: nat)
    ensures size < MaxFontSize ==> r == size + FontStep
    ensures size >= MaxFontSize ==> r == size
  {
    if size < MaxFontSize then size + FontStep else size
  }

  /** The guarded update of `decreaseFontSize`. */
  function Decreased(size: nat): (r: nat)
    ensures size > MinFontSize ==> r == size - FontStep
    ensures size <= MinFontSize ==> r == size
  {
    if size > MinFontSize then size - FontStep else size
  }

  datatype FontAction = Increase | Decrease

  function Step(size: nat, action: FontAction): nat {
    match action
    case Increase => Increased(size)
    case Decrease => Decreased(size)
  }

  /** The size after pressing the buttons in `actions`, first to last. */
  function Run(size: nat, actions: seq<FontAction>): nat
    decreases |actions|
  {
    if actions == [] then size else Run(Step(size, actions[0]), actions[1..])
  }

  /** Any sequence of presses keeps a size within [12, 24] and even. */
  lemma {:induction false} RunStaysReachable(size: nat, actions: seq<FontAction>)
    requires ReachableSize(size)
    ensures ReachableSize(Run(size, actions))
    decreases |actions|
  {
    if actions != [] {
      RunStaysReachable(Step(size, actions[0]), actions[1..]);
    }
  }

  lemma {:induction false} RunRepeated(size: nat, action: FontAction, k: nat)
    requires action == Increase ==> size + FontStep * k <= MaxFontSize
    requires action == Decrease ==> MinFontSize <= size - FontStep * k
    ensures Run(size, seq(k, _ => action)) == if action == Increase then size + FontStep * k else size - FontStep * k
    decreases k
  {
    if k > 0 {
      var actions := seq(k, _ => action);
      assert actions[1..] == seq(k - 1, _ => action);
      RunRepeated(Step(size, action), action, k - 1);
    }
  }

  /** From the initial 16, exactly the reachable sizes can be reached by some sequence of presses. */
  lemma ReachableFromDefault(size: nat)
    ensures ReachableSize(size) <==> exists actions :: Run(DefaultFontSize, actions) == size
  {
    if ReachableSize(size) {
      if size >= DefaultFontSize {
        RunRepeated(DefaultFontSize, Increase, (size - DefaultFontSize) / 2);
        assert Run(DefaultFontSize, seq((size - DefaultFontSize) / 2, _ => Increase)) == size;
      } else {
        RunRepeated(DefaultFontSize, Decrease, (DefaultFontSize - size) / 2);
        assert Run(DefaultFontSize, seq((DefaultFontSize - size) / 2, _ => Decrease)) == size;
      }
    }
    if exists actions :: Run(DefaultFontSize, actions) == size {
      var actions :| Run(DefaultFontSize, actions) == size;
      RunStaysReachable(DefaultFontSize, actions);
    }
  }

  /** Below the maximum, one step up and one step down is the identity, and likewise above the minimum. */
  lemma StepsUndoEachOther(size: nat)
    requires ReachableSize(size)
    ensures size < MaxFontSize ==> Decreased(Increased(size)) == size
    ensures size > MinFontSize ==> Increased(Decreased(size)) == size
  {
  }

  /** The CSS text `${size}px` written to the root element. */
  function Px(size: nat): (r: string)
    ensures |r| >= 3 && r[|r| - 2..] == "px"
    ensures forall i :: 0 <= i < |r| - 2 ==> JsString.IsDigit(r[i])
  {
    JsString.Decimal(size) + "px"
  }

  /** Reads back a length of the form `<decimal digits>px`. */
  function ParsePx(style: string): Option<nat> {
    if |style| >= 3 && style[|style| - 2..] == "px"
       && forall i :: 0 <= i < |style| - 2 ==> JsString.IsDigit(style[i])
    then Some(JsString.DecimalValue(style[..|style| - 2]))
    else None
  }

  /** What the stepper writes can be read back, so distinct sizes give distinct styles. */
  lemma ParsePxRoundTrip(size: nat)
    ensures ParsePx(Px(size)) == Some(size)
  {
    var style := Px(size);
    assert style[..|style| - 2] == JsString.Decimal(size);
    assert style[|style| - 2..] == "px";
    JsString.DecimalRoundTrip(size);
  }

  /** `classList.toggle(c)`: `c` changes membership, every other class keeps it. */
  function ToggleClass(classes: set<string>, c: string): (r: set<string>)
    ensures c in r <==> c !in classes
    ensures forall d :: d != c ==> (d in r <==> d in classes)
  {
    if c in classes then classes - {c} else classes + {c}
  }

  lemma ToggleClassTwice(classes: set<string>, c: string)
    ensures ToggleClass(ToggleClass(classes, c), c) == classes
  {
  }

  /** The theme button: "dark" becomes "light", every other theme (also "system") becomes "dark". */
  function NextTheme(theme: string): (r: string)
    ensures r == "light" || r == "dark"
    ensures r == "light" <==> theme == "dark"
  {
    if theme == "dark" then "light" else "dark"
  }

  /** Between dark and light the theme button is an involution. */
  lemma NextThemeTwice(theme: string)
    requires theme == "dark" || theme == "light"
    ensures NextTheme(NextTheme(theme)) == theme
  {
  }

  /** The targets of the four navigation links, in the order they are shown. */
  const NavTargets: seq<string> := ["/", "/publicaciones", "/estadisticas", "/ayuda"]

  /** A link is highlighted when the current path equals its target. */
  predicate IsActiveLink(pathname: string, target: string) {
    pathname == target
  }

  function ActiveLinks(pathname: string): set<nat> {
    set i: nat | i < |NavTargets| && IsActiveLink(pathname, NavTargets[i])
  }

  /** For any path at most one link is highlighted, and exactly one when the path is one of the targets. */
  lemma AtMostOneActiveLink(pathname: string)
    ensures |ActiveLinks(pathname)| <= 1
    ensures pathname in NavTargets <==> |ActiveLinks(pathname)| == 1
  {
    var k := if pathname == "/" then 0
      else if pathname == "/publicaciones" then 1
      else if pathname == "/estadisticas" then 2
      else if pathname == "/ayuda" then 3
      else 4;
    if k < 4 {
      assert ActiveLinks(pathname) == {k};
    } else {
      assert ActiveLinks(pathname) == {};
    }
  }

  /** The document's root element: its inline `font-size` ("" while unset) and its class list. */
  class DocumentRoot {
    var styleFontSize: string
    var classList: set<string>

    constructor ()
      ensures styleFontSize == "" && classList == {}
    {
      styleFontSize := "";
      classList := {};
    }
  }

  /** The root shows `size` when its inline font size is `${size}px`, or unset while the size is the default. */
  predicate RootShowsSize(size: nat, style: string) {
    style == Px(size) || (style == "" && size == DefaultFontSize)
  }

  /** The inline font sizes a header of this site can have left on the root. */
  ghost predicate WrittenByHeader(style: string) {
    style == "" || exists size :: ReachableSize(size) && style == Px(size)
  }

  /** The size a remounted header takes over from the root, falling back to the default. */
  function RestoredSize(style: string): (r: nat)
    ensures ReachableSize(r)
    ensures style == "" ==> r == DefaultFontSize
    ensures forall size: nat :: ReachableSize(size) && style == Px(size) ==> r == size
  {
    assert forall size: nat :: style == Px(size) ==> ParsePx(style) == Some(size) by {
      forall size: nat | style == Px(size) ensures ParsePx(style) == Some(size) {
        ParsePxRoundTrip(size);
      }
    }
    match ParsePx(style)
    case Some(size) => if ReachableSize(size) then size else DefaultFontSize
    case None => DefaultFontSize
  }

  /** A path of reads and writes showing the remount defect: one press, a route change, and the new header no longer matches the root. */
  lemma RemountAfterIncreaseDisagrees()
    ensures !RootShowsSize(DefaultFontSize, Px(Increased(DefaultFontSize)))
  {
    ParsePxRoundTrip(DefaultFontSize);
    ParsePxRoundTrip(Increased(DefaultFontSize));
  }

  /** The header component. */
  class Header {
    const root: DocumentRoot
    var fontSize: nat
    var highContrast: bool
    var theme: string

    /** The component's own invariant. */
    ghost predicate Valid()
      reads this
    {
      ReachableSize(fontSize)
    }

    /** The state and what was applied to the root element agree. */
    ghost predicate AgreesWithRoot()
      reads this, root
    {
      RootShowsSize(fontSize, root.styleFontSize) && highContrast == (HighContrastClass in root.classList)
    }

    /**
     * Mounting as written: the state starts at 16 and off whatever the root
     * already shows, so it agrees with the root only when the root is untouched.
     */
    constructor Mount(root: DocumentRoot, theme: string)
      ensures this.root == root && this.theme == theme
      ensures fontSize == DefaultFontSize && !highContrast
      ensures Valid()
      ensures AgreesWithRoot() <==> RootShowsSize(DefaultFontSize, root.styleFontSize) && HighContrastClass !in root.classList
    {
      this.root := root;
      this.theme := theme;
      fontSize := DefaultFontSize;
      highContrast := false;
    }

    /** Mounting that takes the size and the contrast flag over from the root, so a remount keeps the two in agreement. */
    constructor Restore(root: DocumentRoot, theme: string)
      ensures this.root == root && this.theme == theme
      ensures fontSize == RestoredSize(root.styleFontSize)
      ensures highContrast == (HighContrastClass in root.classList)
      ensures Valid()
      ensures WrittenByHeader(root.styleFontSize) ==> AgreesWithRoot()
    {
      this.root := root;
      this.theme := theme;
      fontSize := RestoredSize(root.styleFontSize);
      highContrast := HighContrastClass in root.classList;
    }

    /** `increaseFontSize`: two up and written to the root below 24; at 24 neither is touched. */
    method IncreaseFontSize()
      requires Valid()
      modifies this, root
      ensures Valid()
      ensures fontSize == Increased(old(fontSize))
      ensures old(fontSize) < MaxFontSize ==> root.styleFontSize == Px(fontSize)
      ensures old(fontSize) >= MaxFontSize ==> root.styleFontSize == old(root.styleFontSize)
      ensures old(AgreesWithRoot()) ==> AgreesWithRoot()
      ensures root.classList == old(root.classList)
      ensures highContrast == old(highContrast) && theme == old(theme)
    {
      if fontSize < MaxFontSize {
        var newSize := fontSize + FontStep;
        fontSize := newSize;
        root.styleFontSize := Px(newSize);
      }
    }

    /** `decreaseFontSize`: two down and written to the root above 12; at 12 neither is touched. */
    method DecreaseFontSize()
      requires Valid()
      modifies this, root
      ensures Valid()
      ensures fontSize == Decreased(old(fontSize))
      ensures old(fontSize) > MinFontSize ==> root.styleFontSize == Px(fontSize)
      ensures old(fontSize) <= MinFontSize ==> root.styleFontSize == old(root.styleFontSize)
      ensures old(AgreesWithRoot()) ==> AgreesWithRoot()
      ensures root.classList == old(root.classList)
      ensures highContrast == old(highContrast) && theme == old(theme)
    {
      if fontSize > MinFontSize {
        var newSize := fontSize - FontStep;
        fontSize := newSize;
        root.styleFontSize := Px(newSize);
      }
    }

    /** `toggleHighContrast`: flips the flag and the root's `high-contrast` class together. */
    method ToggleHighContrast()
      modifies this, root
      ensures highContrast == !old(highContrast)
      ensures root.classList == ToggleClass(old(root.classList), HighContrastClass)
      ensures old(AgreesWithRoot()) ==> AgreesWithRoot()
      ensures fontSize == old(fontSize) && theme == old(theme) && root.styleFontSize == old(root.styleFontSize)
    {
      highContrast := !highContrast;
      root.classList := ToggleClass(root.classList, HighContrastClass);
    }

    /** The theme button's `onClick`. */
    method ToggleTheme()
      modifies this
      ensures theme == NextTheme(old(theme))
      ensures fontSize == old(fontSize) && highContrast == old(highContrast)
    {
      theme := NextTheme(theme);
    }
  }

  /** Toggling high contrast twice restores the flag and the root's classes. */
  method ToggleHighContrastTwice(h: Header)
    modifies h, h.root
    ensures h.highContrast == old(h.highContrast) && h.root.classList == old(h.root.classList)
    ensures h.fontSize == old(h.fontSize) && h.root.styleFontSize == old(h.root.styleFontSize)
  {
    ghost var classes := h.root.classList;
    h.ToggleHighContrast();
    h.ToggleHighContrast();
    ToggleClassTwice(classes, HighContrastClass);
  }

  /**
   * The remount defect end to end: a first header raises the size and turns
   * high contrast on; after a route change the header mounted as written
   * disagrees with the root, while one that restores from the root agrees.
   */
  method RouteChange() returns (remounted: Header, restored: Header)
    ensures !remounted.AgreesWithRoot()
    ensures restored.AgreesWithRoot() && restored.fontSize == Increased(DefaultFontSize) && restored.highContrast
  {
    var root := new DocumentRoot();
    var first := new Header.Mount(root, "light");
    first.IncreaseFontSize();
    first.ToggleHighContrast();
    RemountAfterIncreaseDisagrees();
    remounted := new Header.Mount(root, "light");
    assert root.styleFontSize == Px(Increased(DefaultFontSize));
    assert ReachableSize(Increased(DefaultFontSize));
    restored := new Header.Restore(root, "light");
  }
}
