/** The navigation bar: it hides while the visitor scrolls down past the
    header, shows again on the way up, locks the page's scrolling while the
    mobile menu is open, and turns in-page anchor links into either a
    smooth scroll or a navigation to the home page. */
module Navbar {
  import opened Wrappers
  import opened Text

  /** The site's locales, `['fr', 'en']`. */
  datatype Locale = Fr | En

  /** What the router or the page is asked to do. */
  datatype Navigation =
    | ReplaceLocale(pathname: string, locale: Locale)   // router.replace(pathname, {locale})
    | PushPath(path: string)                            // router.push(path)
    | ScrollToSection(anchor: string)                   // element.scrollIntoView, if the element exists

  /** `window.scrollTo(0, y)`, with `None` standing for a `NaN` target. */
  datatype ScrollCommand = NoScroll | ScrollTo(y: Option<int>)

  // ---------------------------------------------------------------------
  // Scroll rules
  // ---------------------------------------------------------------------

  // `window.scrollY` is a double: fractional under zoom or on dense
  // screens, negative during overscroll. Scroll positions here are `real`.

  /** The background turns opaque once the position exceeds 10 pixels. */
  function ScrolledPast(currentScrollY: real): (past: bool)
    ensures past <==> 10.0 < currentScrollY
  {
    currentScrollY > 10.0
  }

  /** The bar hides only when moving down and below the first 100 pixels. */
  function ShowsAfterScroll(lastScrollY: real, currentScrollY: real): (shown: bool)
    ensures shown <==> currentScrollY <= lastScrollY || currentScrollY <= 100.0
  {
    !(currentScrollY > lastScrollY && currentScrollY > 100.0)
  }

  /** Scrolling up, staying put, or being within the first 100 pixels
      always shows the bar. */
  lemma ShowRules(lastScrollY: real, currentScrollY: real)
    ensures currentScrollY <= lastScrollY ==> ShowsAfterScroll(lastScrollY, currentScrollY)
    ensures currentScrollY <= 100.0 ==> ShowsAfterScroll(lastScrollY, currentScrollY)
    ensures !ShowsAfterScroll(lastScrollY, currentScrollY) ==> ScrolledPast(currentScrollY)
  {
  }

  // ---------------------------------------------------------------------
  // The saved scroll position, "-<n>px", and parseInt
  // ---------------------------------------------------------------------

  predicate IsDigit(c: char) {
    '0' <= c <= '9'
  }

  function DigitChar(d: nat): (c: char)
    requires d < 10
    ensures IsDigit(c)
  {
    ('0' as int + d) as char
  }

  /** The decimal form of a natural number, as a template literal prints it. */
  function NatToString(n: nat): (s: string)
    ensures |s| >= 1
    ensures forall i :: 0 <= i < |s| ==> IsDigit(s[i])
  {
    if n < 10 then [DigitChar(n)] else NatToString(n / 10) + [DigitChar(n % 10)]
  }

  /** The value of a string of decimal digits. */
  function DigitsValue(s: string): nat
    requires forall i :: 0 <= i < |s| ==> IsDigit(s[i])
  {
    if s == [] then 0 else 10 * DigitsValue(s[..|s| - 1]) + DigitValue(s[|s| - 1])
  }

  function DigitValue(c: char): (d: nat)
    requires IsDigit(c)
    ensures d < 10
  {
    c as int - '0' as int
  }

  /** The length of the longest all-digit prefix. */
  function DigitSpan(s: string): (k: nat)
    ensures k <= |s|
    ensures forall i :: 0 <= i < k ==> IsDigit(s[i])
    ensures k < |s| ==> !IsDigit(s[k])
  {
    if s != [] && IsDigit(s[0]) then 1 + DigitSpan(s[1..]) else 0
  }

  /** What `parseInt` skips first. */
  function TrimStart(s: string): (r: string)
    ensures r == [] || !IsSpace(r[0])
  {
    if s != [] && IsSpace(s[0]) then TrimStart(s[1..]) else s
  }

  /** `parseInt(s)` in base ten: leading white space, an optional sign, then
      the longest run of digits; `None` (NaN) when there is no digit. */
  function ParseInt(s: string): (r: Option<int>)
    ensures r.None? <==> DigitSpan(SignlessPart(TrimStart(s))) == 0
  {
    var t := TrimStart(s);
    var negative := t != [] && t[0] == '-';
    var digits := SignlessPart(t);
    var k := DigitSpan(digits);
    if k == 0 then None
    else
      var v: int := DigitsValue(digits[..k]);
      Some(if negative then -v else v)
  }

  /** The text after an optional leading sign. */
  function SignlessPart(t: string): string {
    if t != [] && (t[0] == '-' || t[0] == '+') then t[1..] else t
  }

  /** `` `-${scrollY}px` `` */
  function EncodeTop(scrollY: nat): (top: string)
    ensures top != ""
  {
    "-" + NatToString(scrollY) + "px"
  }

  /** The close branch of the menu effect: `if (scrollY) scrollTo(0, parseInt(scrollY || '0') * -1)`. */
  function RestoreCommand(top: string): (cmd: ScrollCommand)
    ensures top == "" <==> cmd == NoScroll
  {
    if top == "" then NoScroll
    else
      var parsed := ParseInt(top);
      ScrollTo(if parsed.Some? then Some(parsed.value * -1) else None)
  }

  lemma {:induction false} ValueOfNatToString(n: nat)
    ensures DigitsValue(NatToString(n)) == n
  {
    if n >= 10 {
      var s := NatToString(n);
      ValueOfNatToString(n / 10);
      assert s[..|s| - 1] == NatToString(n / 10);
    }
  }

  lemma {:induction false} DigitSpanOfDigits(d: string, rest: string)
    requires forall i :: 0 <= i < |d| ==> IsDigit(d[i])
    requires rest == [] || !IsDigit(rest[0])
    ensures DigitSpan(d + rest) == |d|
  {
    if d != [] {
      assert (d + rest)[1..] == d[1..] + rest;
      DigitSpanOfDigits(d[1..], rest);
    } else {
      assert d + rest == rest;
    }
  }

  /** Decoding the saved top gives back the negated position. */
  lemma ParseEncodedTop(scrollY: nat)
    ensures ParseInt(EncodeTop(scrollY)) == Some(-(scrollY as int))
  {
    var top := EncodeTop(scrollY);
    var digits := NatToString(scrollY);
    assert TrimStart(top) == top;
    assert SignlessPart(top) == digits + "px";
    DigitSpanOfDigits(digits, "px");
    assert (digits + "px")[..|digits|] == digits;
    ValueOfNatToString(scrollY);
  }

  /** Round trip: closing restores exactly the position saved on opening. */
  lemma RestoreEncodedTop(scrollY: nat)
    ensures RestoreCommand(EncodeTop(scrollY)) == ScrollTo(Some(scrollY))
  {
    ParseEncodedTop(scrollY);
  }

  // ---------------------------------------------------------------------
  // Anchor links and language change
  // ---------------------------------------------------------------------

  /** `href.replace('#', '')`: only the first '#' goes. */
  function AnchorOf(href: string): (anchor: string)
    ensures '#' !in href ==> anchor == href
    ensures '#' in href ==>
      exists i :: 0 <= i < |href| && href[i] == '#' && '#' !in href[..i] && anchor == href[..i] + href[i + 1..]
    ensures '#' in href ==> |anchor| == |href| - 1 && Count(anchor, '#') == Count(href, '#') - 1
  {
    if '#' !in href then href
    else
      var i := IndexOf(href, '#');
      CountRemove(href, i, '#');
      href[..i] + href[i + 1..]
  }

  /** A link `#name` targets the section `name`. */
  lemma AnchorOfLink(name: string)
    ensures AnchorOf("#" + name) == name
  {
    IndexOfUnique("#" + name, '#', 0);
    assert ("#" + name)[1..] == name;
  }

  predicate IsHomepage(pathname: string) {
    pathname == "/" || pathname == ""
  }

  /** The decision of `handleAnchorClick`: scroll in place on the home page,
      otherwise go to the home page with the anchor as its hash. */
  function AnchorNavigation(pathname: string, href: string): (nav: Navigation)
    ensures nav.ScrollToSection? <==> IsHomepage(pathname)
    ensures nav.ScrollToSection? ==> nav.anchor == AnchorOf(href)
    ensures nav.PushPath? ==> nav.path == "/#" + AnchorOf(href)
  {
    var anchor := AnchorOf(href);
    if IsHomepage(pathname) then ScrollToSection(anchor) else PushPath("/#" + anchor)
  }

  /** From any other page, a link `#name` goes to `/#name`: the home page
      path followed by the link itself. */
  lemma AnchorFromOtherPage(pathname: string, name: string)
    requires !IsHomepage(pathname)
    ensures AnchorNavigation(pathname, "#" + name) == PushPath("/" + "#" + name)
  {
    AnchorOfLink(name);
  }

  // ---------------------------------------------------------------------
  // The component's state
  // ---------------------------------------------------------------------

  class Navbar {
    var isScrolled: bool
    var isVisible: bool
    var lastScrollY: real
    var isMobileMenuOpen: bool
    /** `document.body.style.position/left/right/overflow` set to lock scrolling. */
    var bodyLocked: bool
    /** `document.body.style.top` */
    var bodyTop: string

    constructor ()
      ensures !isScrolled && isVisible && lastScrollY == 0.0 && !isMobileMenuOpen
      ensures !bodyLocked && bodyTop == ""
    {
      isScrolled, isVisible, lastScrollY := false, true, 0.0;
      isMobileMenuOpen := false;
      bodyLocked, bodyTop := false, "";
    }

    /** The `translate-y-0` condition: the bar is in view when visible or
        while the mobile menu is open. */
    function InView(): (inView: bool)
      reads this
      ensures isMobileMenuOpen ==> inView
      ensures !isMobileMenuOpen ==> (inView <==> isVisible)
    {
      isVisible || isMobileMenuOpen
    }

    /** The blurred dark background: scrolled and menu closed. */
    function Blurred(): (blurred: bool)
      reads this
      ensures isMobileMenuOpen ==> !blurred
      ensures !isMobileMenuOpen ==> (blurred <==> isScrolled)
    {
      isScrolled && !isMobileMenuOpen
    }

    /** `handleScroll` */
    method HandleScroll(currentScrollY: real)
      modifies this`isScrolled, this`isVisible, this`lastScrollY
      ensures isScrolled == ScrolledPast(currentScrollY)
      ensures isVisible == ShowsAfterScroll(old(lastScrollY), currentScrollY)
      ensures lastScrollY == currentScrollY
    {
      isScrolled := currentScrollY > 10.0;
      if currentScrollY > lastScrollY && currentScrollY > 100.0 {
        isVisible := false;
      } else {
        isVisible := true;
      }
      lastScrollY := currentScrollY;
    }

    /** The hamburger button. */
    method ToggleMobileMenu()
      modifies this`isMobileMenuOpen
      ensures isMobileMenuOpen == !old(isMobileMenuOpen)
    {
      isMobileMenuOpen := !isMobileMenuOpen;
    }

    /** `closeMobileMenu` */
    method CloseMobileMenu()
      modifies this`isMobileMenuOpen
      ensures !isMobileMenuOpen
    {
      isMobileMenuOpen := false;
    }

    /** `handleLanguageChange`: same page in the chosen locale; the menu closes. */
    method HandleLanguageChange(pathname: string, lang: Locale) returns (nav: Navigation)
      modifies this`isMobileMenuOpen
      ensures nav == ReplaceLocale(pathname, lang)
      ensures !isMobileMenuOpen
    {
      nav := ReplaceLocale(pathname, lang);
      CloseMobileMenu();
    }

    /** `handleAnchorClick`: the menu closes, then the page scrolls or navigates. */
    method HandleAnchorClick(pathname: string, href: string) returns (nav: Navigation)
      modifies this`isMobileMenuOpen
      ensures nav == AnchorNavigation(pathname, href)
      ensures !isMobileMenuOpen
    {
      CloseMobileMenu();
      var anchor := AnchorOf(href);
      if IsHomepage(pathname) {
        nav := ScrollToSection(anchor);
      } else {
        nav := PushPath("/#" + anchor);
      }
    }

    /** The body of the scroll-lock effect: lock and save the position when
        the menu is open; otherwise unlock and scroll back to what `top` says. */
    method MenuEffect(scrollY: nat) returns (cmd: ScrollCommand)
      modifies this`bodyLocked, this`bodyTop
      ensures isMobileMenuOpen ==> bodyLocked && bodyTop == EncodeTop(scrollY) && cmd == NoScroll
      ensures !isMobileMenuOpen ==> !bodyLocked && bodyTop == "" && cmd == RestoreCommand(old(bodyTop))
    {
      if isMobileMenuOpen {
        bodyLocked := true;
        bodyTop := EncodeTop(scrollY);
        cmd := NoScroll;
      } else {
        var saved := bodyTop;
        bodyLocked := false;
        bodyTop := "";
        cmd := RestoreCommand(saved);
      }
    }

    /** The cleanup the effect returns: every body style is reset. */
    method MenuEffectCleanup()
      modifies this`bodyLocked, this`bodyTop
      ensures !bodyLocked && bodyTop == ""
    {
      bodyLocked := false;
      bodyTop := "";
    }

    /** As written: when `isMobileMenuOpen` changes, the runtime runs the
        previous cleanup and then the effect again. The cleanup has already
        emptied `top` when the close branch reads it. */
    method MenuChangedAsWritten(scrollY: nat) returns (cmd: ScrollCommand)
      modifies this`bodyLocked, this`bodyTop
      ensures !isMobileMenuOpen ==> cmd == NoScroll && !bodyLocked && bodyTop == ""
      ensures isMobileMenuOpen ==> cmd == NoScroll && bodyLocked && bodyTop == EncodeTop(scrollY)
    {
      MenuEffectCleanup();
      cmd := MenuEffect(scrollY);
    }

    /** Corrected: the position saved when the menu opened is read before the
        cleanup empties `top`, so closing scrolls back to it. */
    method MenuChanged(scrollY: nat) returns (cmd: ScrollCommand)
      modifies this`bodyLocked, this`bodyTop
      ensures isMobileMenuOpen ==> cmd == NoScroll && bodyLocked && bodyTop == EncodeTop(scrollY)
      ensures !isMobileMenuOpen ==> cmd == RestoreCommand(old(bodyTop)) && !bodyLocked && bodyTop == ""
    {
      var saved := bodyTop;
      MenuEffectCleanup();
      if isMobileMenuOpen {
        cmd := MenuEffect(scrollY);
      } else {
        cmd := RestoreCommand(saved);
      }
    }
  }

  /** As written, opening the menu at any position and closing it again
      never scrolls back: the page is left at the top. */
  method ScrollLostOnClose(scrollY: nat) returns (cmd: ScrollCommand)
    ensures cmd == NoScroll
  {
    var bar := new Navbar();
    bar.ToggleMobileMenu();
    var _ := bar.MenuChangedAsWritten(scrollY);
    bar.ToggleMobileMenu();
    cmd := bar.MenuChangedAsWritten(0);
  }

  /** With the correction, closing returns to the position saved on opening. */
  method ScrollRestoredOnClose(scrollY: nat) returns (cmd: ScrollCommand)
    ensures cmd == ScrollTo(Some(scrollY))
  {
    var bar := new Navbar();
    bar.ToggleMobileMenu();
    var _ := bar.MenuChanged(scrollY);
    bar.ToggleMobileMenu();
    cmd := bar.MenuChanged(0);
    RestoreEncodedTop(scrollY);
  }

  /** While the menu is open the bar stays in view and keeps a transparent
      background, even after scrolling down past the header. */
  method InViewWhileMenuOpen(currentScrollY: real) returns (inView: bool, blurred: bool, visible: bool)
    ensures inView && !blurred
    ensures visible <==> currentScrollY <= 100.0
  {
    var bar := new Navbar();
    bar.ToggleMobileMenu();
    bar.HandleScroll(currentScrollY);
    inView, blurred, visible := bar.InView(), bar.Blurred(), bar.isVisible;
  }

  /** With the menu closed, the bar is in view exactly when the last scroll
      showed it, and blurred exactly when it is past the 10-pixel mark. */
  method ScrollWithMenuClosed(first: real, second: real) returns (inView: bool, blurred: bool)
    ensures inView <==> ShowsAfterScroll(first, second)
    ensures blurred <==> second > 10.0
  {
    var bar := new Navbar();
    bar.HandleScroll(first);
    bar.HandleScroll(second);
    inView, blurred := bar.InView(), bar.Blurred();
  }
}
