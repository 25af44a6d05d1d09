/**
 * Banner placement in the single-banner scheduler (`MyApplicationContext`):
 * the position argument default, `ParsePositionEnum` (a number naming a
 * position, else a position name, else top-left) and `GetScreenPosition`
 * (integer geometry inside the bounds of a screen).
 *
 * `BannerPositionEnum` is an `int` enum whose declaration is not part of this
 * model; its seven members are taken to have the codes 0 to 6 in the order
 * TopLeft, TopCenter, TopRight, BottomLeft, BottomCenter, BottomRight, Center.
 * The screen lookup (`Screen.PrimaryScreen`, `Screen.FromPoint`) is replaced
 * by the bounds it would give, passed in as parameters.
 */
module Positioning {
  import opened Strings
  import opened Configuration

  datatype BannerPosition = TopLeft | TopCenter | TopRight | BottomLeft | BottomCenter | BottomRight | Center

  /** The integer value of each member. */
  function Code(p: BannerPosition): (n: int)
    ensures 0 <= n <= 6
  {
    match p
    case TopLeft => 0
    case TopCenter => 1
    case TopRight => 2
    case BottomLeft => 3
    case BottomCenter => 4
    case BottomRight => 5
    case Center => 6
  }

  /** `Enum.IsDefined`: some member has this value. */
  predicate IsDefined(n: int)
  {
    0 <= n <= 6
  }

  /** The member with a defined value; the inverse of `Code`. */
  function FromCode(n: int): (p: BannerPosition)
    requires IsDefined(n)
    ensures Code(p) == n
  {
    if n == 0 then TopLeft
    else if n == 1 then TopCenter
    else if n == 2 then TopRight
    else if n == 3 then BottomLeft
    else if n == 4 then BottomCenter
    else if n == 5 then BottomRight
    else Center
  }

  lemma FromCodeOfCode(p: BannerPosition)
    ensures FromCode(Code(p)) == p
  {
  }

  /** The member's name as declared. */
  function Name(p: BannerPosition): string
  {
    match p
    case TopLeft => "TopLeft"
    case TopCenter => "TopCenter"
    case TopRight => "TopRight"
    case BottomLeft => "BottomLeft"
    case BottomCenter => "BottomCenter"
    case BottomRight => "BottomRight"
    case Center => "Center"
  }

  /** The member's name in lower case: the form `Enum.TryParse` compares against when ignoring case. */
  function LowerName(p: BannerPosition): (r: string)
    ensures r != [] && forall i :: 0 <= i < |r| ==> 'a' <= r[i] <= 'z'
  {
    match p
    case TopLeft => "topleft"
    case TopCenter => "topcenter"
    case TopRight => "topright"
    case BottomLeft => "bottomleft"
    case BottomCenter => "bottomcenter"
    case BottomRight => "bottomright"
    case Center => "center"
  }

  /** `LowerName` is the declared name with ASCII upper case mapped to lower case. */
  lemma LowerNameIsLowerOfName(p: BannerPosition)
    ensures LowerName(p) == Lower(Name(p))
  {
    var n, l := Name(p), LowerName(p);
    assert |n| == |l|;
    forall i | 0 <= i < |n|
      ensures LowerChar(n[i]) == l[i]
    {
    }
  }

  // ---------------------------------------------------------------------------
  // Enum.TryParse<BannerPositionEnum>(s, ignoreCase: true)

  /** The value of the member whose name equals `s` ignoring case, if any. */
  function NameValue(s: string): (r: Option<int>)
    ensures r.Some? ==> IsDefined(r.value) && LowerName(FromCode(r.value)) == Lower(s)
    ensures r.None? ==> forall p :: LowerName(p) != Lower(s)
  {
    var l := Lower(s);
    if l == LowerName(TopLeft) then Some(0)
    else if l == LowerName(TopCenter) then Some(1)
    else if l == LowerName(TopRight) then Some(2)
    else if l == LowerName(BottomLeft) then Some(3)
    else if l == LowerName(BottomCenter) then Some(4)
    else if l == LowerName(BottomRight) then Some(5)
    else if l == LowerName(Center) then Some(6)
    else None
  }

  /** Bitwise or of two member values, as the parse of a comma list combines them. */
  function Or(a: int, b: int): int
    requires 0 <= a < 256 && 0 <= b < 256
  {
    ((a as bv8) | (b as bv8)) as int
  }

  /**
   * The name part of `Enum.TryParse`: comma-separated names, each trimmed and
   * matched ignoring case, their values or-ed together; an unknown or empty
   * name, or a trailing comma, fails.
   */
  function ParseNames(s: string): (r: Option<int>)
    ensures r.Some? ==> 0 <= r.value < 256
    decreases |s|
  {
    var k := IndexOf(s, ',');
    if k < 0 then NameValue(Trim(s))
    else if k == |s| - 1 then None
    else
      var first := NameValue(Trim(s[..k]));
      var rest := ParseNames(s[k + 1..]);
      if first.None? || rest.None? then None
      else Some(Or(first.value, rest.value))
  }

  /**
   * `Enum.TryParse<BannerPositionEnum>(s, true, out v)`: after leading white
   * space, a value starting with a digit or a sign is read as an integer and
   * accepted whatever its value, defined or not; anything else is read as
   * names.
   */
  function EnumTryParse(s: string): Option<int>
  {
    var t := TrimStartWhite(s);
    if t == [] then None
    else if IsDigit(t[0]) || t[0] == '-' || t[0] == '+' then
      var n := ParseInt(Some(t));
      if n.Some? then n else ParseNames(t)
    else ParseNames(t)
  }

  /**
   * Text that starts with a digit or a sign and reads as a 32-bit integer is
   * accepted as that integer, whether or not a member has that value.
   */
  lemma EnumReadsInteger(s: string)
    requires s != [] && (IsDigit(s[0]) || s[0] == '-' || s[0] == '+')
    requires ParseInt(Some(s)).Some?
    ensures EnumTryParse(s) == ParseInt(Some(s))
  {
    assert !IsWhiteSpace(s[0]);
  }

  // ---------------------------------------------------------------------------
  // ParsePositionEnum

  /**
   * `ParsePositionEnum` as written: the value it returns, which may be a
   * value no member has, because `Enum.TryParse` accepts any number.
   */
  function ParsePositionEnumAsWritten(posArg: string): (n: int)
    ensures IsDefined(n) || EnumTryParse(posArg) == Some(n)
  {
    var asInt := ParseInt(Some(posArg));
    if asInt.Some? && IsDefined(asInt.value) then asInt.value
    else
      var parsed := EnumTryParse(posArg);
      if parsed.Some? then parsed.value else Code(TopLeft)
  }

  /**
   * `ParsePositionEnum` with the defined-value check applied to what
   * `Enum.TryParse` returns as well, so that every input maps to a member.
   */
  function ParsePositionEnum(posArg: string): (p: BannerPosition)
    ensures IsDefined(ParsePositionEnumAsWritten(posArg)) ==> Code(p) == ParsePositionEnumAsWritten(posArg)
    ensures !IsDefined(ParsePositionEnumAsWritten(posArg)) ==> p == TopLeft
  {
    var asInt := ParseInt(Some(posArg));
    if asInt.Some? && IsDefined(asInt.value) then FromCode(asInt.value)
    else
      var parsed := EnumTryParse(posArg);
      if parsed.Some? && IsDefined(parsed.value) then FromCode(parsed.value) else TopLeft
  }

  /** The decimal code of a member parses to that member. */
  lemma NumericCodeParses(p: BannerPosition)
    ensures ParsePositionEnum(NatToString(Code(p))) == p
    ensures ParsePositionEnumAsWritten(NatToString(Code(p))) == Code(p)
  {
    ParseIntOfNatToString(Code(p));
  }

  predicate IsLetter(c: char)
  {
    'a' <= c <= 'z' || 'A' <= c <= 'Z'
  }

  /** A word of letters is no number and no list, so `Enum.TryParse` reads it as one name. */
  lemma WordParsesAsName(s: string)
    requires s != [] && forall i :: 0 <= i < |s| ==> IsLetter(s[i])
    ensures ParseInt(Some(s)).None?
    ensures EnumTryParse(s) == NameValue(s)
  {
    assert !IsWhiteSpace(s[0]) && !IsWhiteSpace(s[|s| - 1]);
    TrimNone(s);
    assert !IsDigit(s[0]) && s[0] != '-' && s[0] != '+' && s[0] !in NumberWhite;
    ParseIntLeadingJunk(s);
    assert ',' !in s;
  }

  /** A string whose lower-case form is a member's name is a word of letters. */
  lemma NameIsWord(p: BannerPosition, s: string)
    requires Lower(s) == LowerName(p)
    ensures s != [] && forall i :: 0 <= i < |s| ==> IsLetter(s[i])
  {
    var l := LowerName(p);
    forall i | 0 <= i < |s|
      ensures IsLetter(s[i])
    {
      assert LowerChar(s[i]) == l[i];
    }
  }

  /** A member's name, in any ASCII case, parses to that member. */
  lemma NameParses(p: BannerPosition, s: string)
    requires Lower(s) == LowerName(p)
    ensures ParsePositionEnum(s) == p
    ensures ParsePositionEnumAsWritten(s) == Code(p)
  {
    NameIsWord(p, s);
    WordParsesAsName(s);
    var v := NameValue(s);
    assert v.Some? && FromCode(v.value) == p by {
      FromCodeOfCode(p);
    }
    assert EnumTryParse(s) == Some(Code(p));
  }

  /** Text that is neither a number nor a list of names falls back to top-left. */
  lemma UnknownFallsBack(s: string)
    requires ParseInt(Some(s)).None? && EnumTryParse(s).None?
    ensures ParsePositionEnum(s) == TopLeft && ParsePositionEnumAsWritten(s) == Code(TopLeft)
  {
  }

  // ---------------------------------------------------------------------------
  // Screen geometry

  /** A screen's bounds: origin and size. */
  datatype Rect = Rect(x: int, y: int, width: int, height: int)

  /** C# integer division, which truncates toward zero, by a positive divisor. */
  function DivTrunc(a: int, b: int): (q: int)
    requires b > 0
    ensures a >= 0 ==> q == a / b
    ensures a < 0 ==> q == -((-a) / b)
  {
    if a >= 0 then a / b else -((-a) / b)
  }

  /** The screen `GetScreenPosition` measures against: the primary one if asked, else the cursor's, else the primary one. */
  function ChooseScreen(usePrimaryScreen: bool, primary: Option<Rect>, atCursor: Option<Rect>): (r: Option<Rect>)
    ensures usePrimaryScreen ==> r == primary
    ensures !usePrimaryScreen && atCursor.Some? ==> r == atCursor
    ensures r.None? ==> primary.None?
  {
    if usePrimaryScreen then primary
    else if atCursor.Some? then atCursor
    else primary
  }

  /** `GetScreenPosition` for a value that may name no member: such a value matches no case and gives (0, 0). */
  function ScreenPositionAsWritten(pos: int, width: int, height: int, offset: int, screen: Option<Rect>): (int, int)
  {
    if screen.None? then (50, 60 + offset)
    else if IsDefined(pos) then ScreenPosition(FromCode(pos), width, height, offset, screen)
    else (0, 0)
  }

  /** `GetScreenPosition`: the top-left corner of a banner of the given size. */
  function ScreenPosition(pos: BannerPosition, width: int, height: int, offset: int, screen: Option<Rect>): (int, int)
  {
    match screen
    case None => (50, 60 + offset)
    case Some(b) =>
      var left := b.x + 50;
      var centre := b.x + DivTrunc(b.width - width, 2);
      var right := b.x + b.width - width - 50;
      var top := b.y + 60 + offset;
      var bottom := b.y + b.height - height - 60 - offset;
      match pos
      case TopLeft => (left, top)
      case TopCenter => (centre, top)
      case TopRight => (right, top)
      case BottomLeft => (left, bottom)
      case BottomCenter => (centre, bottom)
      case BottomRight => (right, bottom)
      case Center => (centre, b.y + DivTrunc(b.height - height, 2))
  }

  predicate IsTop(p: BannerPosition)
  {
    p == TopLeft || p == TopCenter || p == TopRight
  }

  predicate IsBottom(p: BannerPosition)
  {
    p == BottomLeft || p == BottomCenter || p == BottomRight
  }

  /**
   * The stacking offset moves top banners down and bottom banners up by
   * exactly the offset, leaves centred banners where they are, and never
   * moves a banner sideways.
   */
  lemma OffsetShift(pos: BannerPosition, width: int, height: int, offset: int, b: Rect)
    ensures ScreenPosition(pos, width, height, offset, Some(b)).0 == ScreenPosition(pos, width, height, 0, Some(b)).0
    ensures IsTop(pos) ==> ScreenPosition(pos, width, height, offset, Some(b)).1 == ScreenPosition(pos, width, height, 0, Some(b)).1 + offset
    ensures IsBottom(pos) ==> ScreenPosition(pos, width, height, offset, Some(b)).1 == ScreenPosition(pos, width, height, 0, Some(b)).1 - offset
    ensures pos == Center ==> ScreenPosition(pos, width, height, offset, Some(b)) == ScreenPosition(pos, width, height, 0, Some(b))
  {
  }

  /**
   * Margins: a left-column banner sits 50 from the screen's left edge, a
   * right-column one 50 from its right edge, and a centred one has left and
   * right margins that differ by at most one (the rounding of the truncating
   * division), also when the banner is wider than the screen.
   */
  lemma HorizontalMargins(pos: BannerPosition, width: int, height: int, offset: int, b: Rect)
    ensures var x := ScreenPosition(pos, width, height, offset, Some(b)).0;
      (pos in {TopLeft, BottomLeft} ==> x - b.x == 50) &&
      (pos in {TopRight, BottomRight} ==> (b.x + b.width) - (x + width) == 50) &&
      (pos in {TopCenter, BottomCenter, Center} ==> -1 <= ((b.x + b.width) - (x + width)) - (x - b.x) <= 1)
  {
  }

  /** Vertical margins: a top banner at offset 0 sits 60 below the top edge, a bottom one 60 above the bottom edge. */
  lemma VerticalMargins(pos: BannerPosition, width: int, height: int, b: Rect)
    ensures var y := ScreenPosition(pos, width, height, 0, Some(b)).1;
      (IsTop(pos) ==> y - b.y == 60) &&
      (IsBottom(pos) ==> (b.y + b.height) - (y + height) == 60) &&
      (pos == Center ==> -1 <= ((b.y + b.height) - (y + height)) - (y - b.y) <= 1)
  {
  }

  /** Without a screen the banner goes to (50, 60 + offset) whatever the position. */
  lemma NoScreenFallback(pos: BannerPosition, code: int, width: int, height: int, offset: int)
    ensures ScreenPosition(pos, width, height, offset, None) == (50, 60 + offset)
    ensures ScreenPositionAsWritten(code, width, height, offset, None) == (50, 60 + offset)
  {
  }

  // ---------------------------------------------------------------------------
  // CreateBannerData: the position part

  /** The position argument `CreateBannerData` hands on: a blank position becomes "0". */
  function PositionArgument(c: Config): (s: string)
    ensures IsNullOrWhiteSpace(c.position) ==> s == "0"
    ensures !IsNullOrWhiteSpace(c.position) ==> s == c.position.value
  {
    if IsNullOrWhiteSpace(c.position) then "0" else c.position.value
  }

  /** A request with no position is shown top-left. */
  lemma BlankPositionIsTopLeft(c: Config)
    requires IsNullOrWhiteSpace(c.position)
    ensures ParsePositionEnum(PositionArgument(c)) == TopLeft
    ensures ParsePositionEnumAsWritten(PositionArgument(c)) == Code(TopLeft)
  {
    NumericCodeParses(TopLeft);
  }

  /** The default request position "topleft" is the top-left member. */
  lemma DefaultPositionIsTopLeft()
    ensures ParsePositionEnum(PositionArgument(DefaultConfig)) == TopLeft
  {
    NameParses(TopLeft, "topleft");
  }

  /**
   * The position delegate `ParsePosition` builds for a request, as written:
   * parse once, then measure against the chosen screen at every call.
   */
  function BannerPlacementAsWritten(c: Config, width: int, height: int, offset: int, primary: Option<Rect>, atCursor: Option<Rect>): (int, int)
  {
    ScreenPositionAsWritten(ParsePositionEnumAsWritten(PositionArgument(c)), width, height, offset, ChooseScreen(c.primary, primary, atCursor))
  }

  /** The same with the corrected parse: always one of the seven placements. */
  function BannerPlacement(c: Config, width: int, height: int, offset: int, primary: Option<Rect>, atCursor: Option<Rect>): (r: (int, int))
    ensures IsDefined(ParsePositionEnumAsWritten(PositionArgument(c))) ==>
              r == BannerPlacementAsWritten(c, width, height, offset, primary, atCursor)
  {
    ScreenPosition(ParsePositionEnum(PositionArgument(c)), width, height, offset, ChooseScreen(c.primary, primary, atCursor))
  }

  /**
   * As written, the position "7" is accepted by `Enum.TryParse` as a value no
   * member has, so the banner lands at the screen-space origin (0, 0) and
   * ignores both the screen and the stacking offset; the corrected parse
   * falls back to top-left.
   */
  lemma UndefinedNumberLandsAtOrigin(width: int, height: int, offset: int, b: Rect)
    ensures ParsePositionEnumAsWritten("7") == 7 && !IsDefined(7)
    ensures ScreenPositionAsWritten(7, width, height, offset, Some(b)) == (0, 0)
    ensures ParsePositionEnum("7") == TopLeft
    ensures ScreenPosition(ParsePositionEnum("7"), width, height, offset, Some(b)) == (b.x + 50, b.y + 60 + offset)
  {
    TrimNone("7");
    assert DigitsValue("7") == 7 by {
      assert "7"[..0] == "";
    }
  }
}
