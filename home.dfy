/**
 * The home page's session-storage protocol and mobile menu (src/app/page.tsx).
 * Session storage is a map from keys to strings; browser effects the page asks for
 * (a delayed smooth scroll to the contact section, a jump to a scroll offset) are
 * recorded as actions instead of performed.
 */
module Home {
  import opened Wrappers

  const ScrollToContactKey: string := "scrollToContact"
  const ScrollPositionKey: string := "homeScrollPosition"

  /** `ScrollTo(None)` is `window.scrollTo(0, NaN)`, for a saved value with no leading digit. */
  datatype Action = ScheduleContactScroll | ScrollTo(y: Option<nat>)

  /** `sessionStorage.getItem(key)`, with `null` as `None`. */
  function GetItem(storage: map<string, string>, key: string): (v: Option<string>)
    ensures v.Some? <==> key in storage
    ensures v.Some? ==> v.value == storage[key]
  {
    if key in storage then Some(storage[key]) else None
  }

  // ----- number formatting and parsing of the saved offset -----

  predicate IsDigit(c: char) {
    '0' <= c <= '9'
  }

  function DigitValue(c: char): nat
    requires IsDigit(c)
  {
    (c as int) - ('0' as int)
  }

  function DigitChar(d: nat): (c: char)
    requires d < 10
    ensures IsDigit(c) && DigitValue(c) == d
  {
    ('0' as int + d) as char
  }

  /** `n.toString()` for a whole number. */
  function NatToString(n: nat): (s: string)
    ensures |s| >= 1
    ensures forall i :: 0 <= i < |s| ==> IsDigit(s[i])
  {
    if n < 10 then [DigitChar(n)] else NatToString(n / 10) + [DigitChar(n % 10)]
  }

  /** The number of leading decimal digits of `s`. */
  function LeadingDigits(s: string): (k: nat)
    ensures k <= |s|
    ensures forall i :: 0 <= i < k ==> IsDigit(s[i])
    ensures k < |s| ==> !IsDigit(s[k])
  {
    if s == [] || !IsDigit(s[0]) then 0 else 1 + LeadingDigits(s[1..])
  }

  /** The value of a string of decimal digits. */
  function DigitsValue(d: string): nat
    requires forall i :: 0 <= i < |d| ==> IsDigit(d[i])
  {
    if d == [] then 0 else DigitsValue(d[..|d| - 1]) * 10 + DigitValue(d[|d| - 1])
  }

  /** `parseInt(s)` on the leading decimal digits of `s`; `None` stands for `NaN`. */
  function ParseInt(s: string): (v: Option<nat>)
    ensures v.None? <==> s == [] || !IsDigit(s[0])
  {
    var k := LeadingDigits(s);
    if k == 0 then None else Some(DigitsValue(s[..k]))
  }

  lemma {:induction false} DigitsValueOfNat(n: nat)
    ensures DigitsValue(NatToString(n)) == n
  {
    if n >= 10 {
      var s := NatToString(n);
      DigitsValueOfNat(n / 10);
      assert s[..|s| - 1] == NatToString(n / 10);
    }
  }

  /** A saved offset parses back to the same offset. */
  lemma ParseNatToString(n: nat)
    ensures ParseInt(NatToString(n)) == Some(n)
  {
    var s := NatToString(n);
    assert LeadingDigits(s) == |s|;
    assert s[..|s|] == s;
    DigitsValueOfNat(n);
  }

  // ----- the mount effect -----

  /** What one run of the mount effect does: the new storage, the browser actions it
      requests, and whether it installs the leave handlers. */
  datatype MountEffect = MountEffect(storage: map<string, string>, actions: seq<Action>, listens: bool)

  /** The effect's decision, from the storage contents at mount time. */
  function OnMount(storage: map<string, string>): (e: MountEffect)
    ensures GetItem(storage, ScrollToContactKey) == Some("true") ==>
              e == MountEffect(storage - {ScrollToContactKey}, [ScheduleContactScroll], false)
    ensures GetItem(storage, ScrollToContactKey) != Some("true") ==> e.listens
    ensures GetItem(storage, ScrollToContactKey) != Some("true") ==> ScheduleContactScroll !in e.actions
  {
    if GetItem(storage, ScrollToContactKey) == Some("true") then
      MountEffect(storage - {ScrollToContactKey}, [ScheduleContactScroll], false)
    else
      var saved := GetItem(storage, ScrollPositionKey);
      if saved.Some? && saved.value != "" then
        MountEffect(storage - {ScrollPositionKey}, [ScrollTo(ParseInt(saved.value))], true)
      else
        MountEffect(storage, [], true)
  }

  /**
   * Without a pending contact scroll the flag key is left as it is, and a non-empty
   * saved offset is applied and deleted; an absent or empty one is neither.
   */
  lemma RestorePath(storage: map<string, string>)
    requires GetItem(storage, ScrollToContactKey) != Some("true")
    ensures GetItem(OnMount(storage).storage, ScrollToContactKey) == GetItem(storage, ScrollToContactKey)
    ensures ScrollPositionKey in storage && storage[ScrollPositionKey] != "" ==>
              OnMount(storage).actions == [ScrollTo(ParseInt(storage[ScrollPositionKey]))] &&
              OnMount(storage).storage == storage - {ScrollPositionKey}
    ensures ScrollPositionKey !in storage || storage[ScrollPositionKey] == "" ==>
              OnMount(storage) == MountEffect(storage, [], true)
  {
  }

  /** The contact path never touches the saved offset. */
  lemma ContactPathKeepsOffset(storage: map<string, string>)
    requires GetItem(storage, ScrollToContactKey) == Some("true")
    ensures GetItem(OnMount(storage).storage, ScrollPositionKey) == GetItem(storage, ScrollPositionKey)
    ensures GetItem(OnMount(storage).storage, ScrollToContactKey) == None
  {
  }

  /** A contact scroll is delivered at most once: a second mount never schedules one. */
  lemma ContactScrollAtMostOnce(storage: map<string, string>)
    ensures ScheduleContactScroll !in OnMount(OnMount(storage).storage).actions
  {
  }

  /** A restored offset is consumed: the next mount, with nothing saved since, does not scroll. */
  lemma OffsetRestoredOnce(storage: map<string, string>)
    requires GetItem(storage, ScrollToContactKey) != Some("true")
    ensures OnMount(OnMount(storage).storage).actions == []
    ensures OnMount(OnMount(storage).storage).storage == OnMount(storage).storage
  {
  }

  /** Leaving at offset `y` and coming back scrolls to exactly `y` and clears the key. */
  lemma LeaveThenReturn(storage: map<string, string>, y: nat)
    requires GetItem(storage, ScrollToContactKey) != Some("true")
    ensures var e := OnMount(storage[ScrollPositionKey := NatToString(y)]);
      e.actions == [ScrollTo(Some(y))] && ScrollPositionKey !in e.storage
  {
    var saved := storage[ScrollPositionKey := NatToString(y)];
    assert GetItem(saved, ScrollToContactKey) == GetItem(storage, ScrollToContactKey);
    ParseNatToString(y);
  }

  /** The home page: session storage, requested actions, the leave handlers, the menu. */
  class HomePage {
    var storage: map<string, string>
    var actions: seq<Action>
    var listening: bool
    var mobileMenuOpen: bool

    constructor (storage: map<string, string>)
      ensures this.storage == storage && actions == [] && !listening && !mobileMenuOpen
    {
      this.storage := storage;
      actions := [];
      listening := false;
      mobileMenuOpen := false;
    }

    /** The scroll effect run once on mount. */
    method Mount()
      modifies this`storage, this`actions, this`listening
      ensures var e := OnMount(old(storage));
        storage == e.storage && actions == old(actions) + e.actions &&
        listening == (old(listening) || e.listens)
    {
      var shouldScrollToContact := GetItem(storage, ScrollToContactKey);
      if shouldScrollToContact == Some("true") {
        storage := storage - {ScrollToContactKey};
        actions := actions + [ScheduleContactScroll];
        return;
      }
      var savedPosition := GetItem(storage, ScrollPositionKey);
      if savedPosition.Some? && savedPosition.value != "" {
        actions := actions + [ScrollTo(ParseInt(savedPosition.value))];
        storage := storage - {ScrollPositionKey};
      }
      listening := true;
    }

    /** The effect's cleanup: the leave handlers are removed. */
    method Unmount()
      modifies this`listening
      ensures !listening
    {
      listening := false;
    }

    /** `beforeunload`: save the current offset, if the handler is installed. */
    method BeforeUnload(scrollY: nat)
      modifies this`storage
      ensures storage == if listening then old(storage)[ScrollPositionKey := NatToString(scrollY)]
                         else old(storage)
    {
      if listening {
        storage := storage[ScrollPositionKey := NatToString(scrollY)];
      }
    }

    /** A click on a link; only internal links (`href` starting with `/`) carry the handler. */
    method LinkClick(href: string, scrollY: nat)
      modifies this`storage
      ensures storage == if listening && "/" <= href
                         then old(storage)[ScrollPositionKey := NatToString(scrollY)]
                         else old(storage)
    {
      if listening && "/" <= href {
        storage := storage[ScrollPositionKey := NatToString(scrollY)];
      }
    }

    /** The menu button. */
    method ToggleMenu()
      modifies this`mobileMenuOpen
      ensures mobileMenuOpen == !old(mobileMenuOpen)
    {
      mobileMenuOpen := !mobileMenuOpen;
    }

    /** Any link inside the mobile menu. */
    method CloseMenu()
      modifies this`mobileMenuOpen
      ensures !mobileMenuOpen
    {
      mobileMenuOpen := false;
    }
  }
}
