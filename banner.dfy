/**
 * The state rules of one banner window (`BannerForm`): the priority guard of
 * `SetData`, the hide timer whose interval is fixed when it is created, the
 * size argument, the background decoded from the colour string, the
 * once-only start of hiding, and the offset and hide counters advanced by
 * `UpdateLocationOpacity`.
 *
 * The pure step functions are the specification; the class `BannerForm`
 * updates its fields in place and is proved against them. Layout, images,
 * sound, the fade-out animation and the floating-point opacity are not part
 * of this model; the background opacity is kept as a tag.
 */
module Banner {
  import opened Strings
  import opened Configuration

  /** The priority a `BannerData` starts with. */
  const DefaultPriority: int := -1

  /** What a form is given to show: its priority, its request and where to put it. */
  datatype BannerData = BannerData(
    priority: int,
    config: Config,
    position: Option<(int, int, int) -> (int, int)>)

  /** A `BannerData` as its initialisers leave it. */
  function NewBannerData(config: Config, position: Option<(int, int, int) -> (int, int)>): (d: BannerData)
    ensures d.priority == DefaultPriority && d.config == config
  {
    BannerData(DefaultPriority, config, position)
  }

  // ---------------------------------------------------------------------------
  // Background colour

  datatype Rgb = Rgb(r: nat, g: nat, b: nat)

  /** `Opaque` is 1.0, `Standard` is 0.9 and `Alpha(a)` is a / 255. */
  datatype Opacity = Opaque | Standard | Alpha(a: nat)

  datatype Background = Background(color: Rgb, opacity: Opacity)

  const Charcoal: Rgb := Rgb(45, 45, 45)

  /** The background used whenever the colour string does not decode. */
  const DefaultBackground: Background := Background(Charcoal, Standard)

  predicate IsByteRgb(c: Rgb)
  {
    c.r < 256 && c.g < 256 && c.b < 256
  }

  /** The byte written as the two characters of `s` at `i`, if both are hex digits. */
  function PairAt(s: string, i: nat): (r: Option<nat>)
    requires i + 2 <= |s|
    ensures r.Some? ==> r.value < 256
  {
    HexByte(s[i..i + 2])
  }

  /**
   * The background `SetData` derives from `Color`: leading '#' characters are
   * stripped; eight characters are AARRGGBB with opacity alpha / 255, six are
   * RRGGBB with opacity 0.9, each pair read by `Convert.ToByte(pair, 16)`; a
   * blank colour, any other length, or a pair that does not convert gives
   * charcoal at 0.9.
   */
  function DecodeColor(color: NString): (r: Background)
    ensures IsByteRgb(r.color)
    ensures r.opacity.Alpha? ==> r.opacity.a < 256
    ensures r.opacity != Opaque
  {
    if IsNullOrWhiteSpace(color) then DefaultBackground
    else
      var s := TrimStartChars(color.value, {'#'});
      if |s| == 8 then
        var a := PairAt(s, 0);
        var r := PairAt(s, 2);
        var g := PairAt(s, 4);
        var b := PairAt(s, 6);
        if a.Some? && r.Some? && g.Some? && b.Some? then
          Background(Rgb(r.value, g.value, b.value), Alpha(a.value))
        else DefaultBackground
      else if |s| == 6 then
        var r := PairAt(s, 0);
        var g := PairAt(s, 2);
        var b := PairAt(s, 4);
        if r.Some? && g.Some? && b.Some? then Background(Rgb(r.value, g.value, b.value), Standard)
        else DefaultBackground
      else DefaultBackground
  }

  /** The '#'-prefixed hex spelling of a colour, as a caller would write it. */
  function HexColor(c: Rgb): (s: string)
    requires IsByteRgb(c)
    ensures |s| == 7 && s[0] == '#'
  {
    "#" + Hex2(c.r) + Hex2(c.g) + Hex2(c.b)
  }

  lemma NoHashInHex(b: nat)
    requires b < 256
    ensures Hex2(b)[0] != '#' && Hex2(b)[1] != '#'
  {
  }

  /** "#RRGGBB" decodes back to the colour, at opacity 0.9. */
  lemma SixDigitRoundTrip(c: Rgb)
    requires IsByteRgb(c)
    ensures DecodeColor(Some(HexColor(c))) == Background(c, Standard)
  {
    var t := HexColor(c);
    var s := Hex2(c.r) + Hex2(c.g) + Hex2(c.b);
    assert t == "#" + s;
    NoHashInHex(c.r);
    assert !IsWhiteSpace(t[0]);
    assert TrimStartChars(t, {'#'}) == TrimStartChars(s, {'#'});
    assert TrimStartChars(s, {'#'}) == s;
    assert s[0..2] == Hex2(c.r) && s[2..4] == Hex2(c.g) && s[4..6] == Hex2(c.b);
    HexByteOfHex2(c.r);
    HexByteOfHex2(c.g);
    HexByteOfHex2(c.b);
  }

  /** "#AARRGGBB" decodes back to the colour, at opacity alpha / 255. */
  lemma EightDigitRoundTrip(alpha: nat, c: Rgb)
    requires alpha < 256 && IsByteRgb(c)
    ensures DecodeColor(Some("#" + Hex2(alpha) + Hex2(c.r) + Hex2(c.g) + Hex2(c.b))) == Background(c, Alpha(alpha))
  {
    var t := "#" + Hex2(alpha) + Hex2(c.r) + Hex2(c.g) + Hex2(c.b);
    var s := Hex2(alpha) + Hex2(c.r) + Hex2(c.g) + Hex2(c.b);
    assert t == "#" + s;
    NoHashInHex(alpha);
    assert !IsWhiteSpace(t[0]);
    assert TrimStartChars(t, {'#'}) == TrimStartChars(s, {'#'});
    assert TrimStartChars(s, {'#'}) == s;
    assert s[0..2] == Hex2(alpha) && s[2..4] == Hex2(c.r) && s[4..6] == Hex2(c.g) && s[6..8] == Hex2(c.b);
    HexByteOfHex2(alpha);
    HexByteOfHex2(c.r);
    HexByteOfHex2(c.g);
    HexByteOfHex2(c.b);
  }

  /** Stripping '#'s commutes with lower-casing. */
  lemma {:induction false} TrimHashLower(x: string)
    ensures TrimStartChars(Lower(x), {'#'}) == Lower(TrimStartChars(x, {'#'}))
    decreases |x|
  {
    if x != [] {
      assert Lower(x)[0] == LowerChar(x[0]);
      if x[0] == '#' {
        assert Lower(x)[1..] == Lower(x[1..]);
        TrimHashLower(x[1..]);
      }
    }
  }

  /** A pair of the lower-cased text converts as the pair of the text does. */
  lemma PairAtLower(s: string, i: nat)
    requires i + 2 <= |s|
    ensures PairAt(Lower(s), i) == PairAt(s, i)
  {
    assert Lower(s)[i..i + 2] == Lower(s[i..i + 2]);
    HexByteIgnoresCase(s[i..i + 2]);
  }

  /** The case of the hex letters does not matter: "#ff8800" is the colour "#FF8800". */
  lemma DecodeColorIgnoresCase(color: string)
    ensures DecodeColor(Some(Lower(color))) == DecodeColor(Some(color))
  {
    var l := Lower(color);
    assert forall i :: 0 <= i < |l| ==> (IsWhiteSpace(l[i]) <==> IsWhiteSpace(color[i]));
    assert IsNullOrWhiteSpace(Some(l)) <==> IsNullOrWhiteSpace(Some(color));
    TrimHashLower(color);
    var s := TrimStartChars(color, {'#'});
    if |s| == 8 || |s| == 6 {
      PairAtLower(s, 0);
      PairAtLower(s, 2);
      PairAtLower(s, 4);
      if |s| == 8 {
        PairAtLower(s, 6);
      }
    }
  }

  /** "#rrggbb" in lower case decodes to the colour too, at opacity 0.9. */
  lemma SixDigitLowerRoundTrip(c: Rgb)
    requires IsByteRgb(c)
    ensures DecodeColor(Some(Lower(HexColor(c)))) == Background(c, Standard)
  {
    DecodeColorIgnoresCase(HexColor(c));
    SixDigitRoundTrip(c);
  }

  /** "#aarrggbb" in lower case decodes to the colour too, at opacity alpha / 255. */
  lemma EightDigitLowerRoundTrip(alpha: nat, c: Rgb)
    requires alpha < 256 && IsByteRgb(c)
    ensures DecodeColor(Some(Lower("#" + Hex2(alpha) + Hex2(c.r) + Hex2(c.g) + Hex2(c.b)))) == Background(c, Alpha(alpha))
  {
    DecodeColorIgnoresCase("#" + Hex2(alpha) + Hex2(c.r) + Hex2(c.g) + Hex2(c.b));
    EightDigitRoundTrip(alpha, c);
  }

  /** The usual lower-case spelling: "#ff8800" is orange at opacity 0.9. */
  lemma LowerCaseOrange()
    ensures DecodeColor(Some("#ff8800")) == Background(Rgb(255, 136, 0), Standard)
  {
    var s := "ff8800";
    assert "#ff8800"[0] == '#' && "#ff8800"[1..] == s && s[0] !in {'#'};
    assert TrimStartChars("#ff8800", {'#'}) == TrimStartChars(s, {'#'}) == s;
    assert s[0..2] == "ff" && s[2..4] == "88" && s[4..6] == "00";
  }

  /** A null or blank colour gives charcoal at 0.9. */
  lemma BlankColorFallsBack(color: NString)
    requires IsNullOrWhiteSpace(color)
    ensures DecodeColor(color) == DefaultBackground
    ensures DecodeColor(None) == DefaultBackground
  {
  }

  /** Any length other than six or eight after the '#'s falls back to charcoal. */
  lemma OtherLengthFallsBack(color: string)
    requires |TrimStartChars(color, {'#'})| != 6 && |TrimStartChars(color, {'#'})| != 8
    ensures DecodeColor(Some(color)) == DefaultBackground
  {
  }

  /**
   * A six-character colour with a character that is not a hex digit falls
   * back to charcoal, unless that character is a '+' leading its pair.
   */
  lemma NonHexFallsBack(color: string, k: nat)
    requires var s := TrimStartChars(color, {'#'});
      |s| == 6 && k < 6 && !IsHexDigit(s[k]) && (k % 2 == 1 || s[k] != '+')
    ensures DecodeColor(Some(color)) == DefaultBackground
  {
    var s := TrimStartChars(color, {'#'});
    var p := if k < 2 then 0 else if k < 4 then 2 else 4;
    PairNotHex(s, p, k);
  }

  /**
   * An eight-character colour with a character that is not a hex digit falls
   * back to charcoal, unless that character is a '+' leading its pair.
   */
  lemma EightNonHexFallsBack(color: string, k: nat)
    requires var s := TrimStartChars(color, {'#'});
      |s| == 8 && k < 8 && !IsHexDigit(s[k]) && (k % 2 == 1 || s[k] != '+')
    ensures DecodeColor(Some(color)) == DefaultBackground
  {
    var s := TrimStartChars(color, {'#'});
    var p := k - k % 2;
    PairNotHex(s, p, k);
  }

  /** A pair holding a character that is not a hex digit, other than a leading '+', is no byte. */
  lemma PairNotHex(s: string, p: nat, k: nat)
    requires p <= k < p + 2 <= |s| && !IsHexDigit(s[k]) && (k == p + 1 || s[k] != '+')
    ensures PairAt(s, p).None?
  {
    assert s[p..p + 2][k - p] == s[k];
  }

  /** `Convert.ToByte` skips a '+' sign, so "#+F0000" is the colour (15, 0, 0). */
  lemma PlusLeadsPair()
    ensures DecodeColor(Some("#+F0000")) == Background(Rgb(15, 0, 0), Standard)
  {
    var s := "+F0000";
    assert TrimStartChars("#+F0000", {'#'}) == TrimStartChars(s, {'#'}) == s;
    assert s[0..2] == "+F" && s[2..4] == "00" && s[4..6] == "00";
  }

  // ---------------------------------------------------------------------------
  // Time to live and size

  /** The hide delay in seconds: `Time` as a 32-bit integer, or 10 when it does not parse. */
  const DefaultTtl: int := 10

  function TtlSeconds(time: NString): (t: int)
    ensures Int32Min <= t <= Int32Max
  {
    match ParseInt(time)
    case Some(n) => n
    case None => DefaultTtl
  }

  /** A decimal `Time` is the number of seconds; an absent one is 10. */
  lemma TtlOfDecimal(n: nat)
    requires n <= Int32Max
    ensures TtlSeconds(Some(NatToString(n))) == n
    ensures TtlSeconds(None) == DefaultTtl
  {
    ParseIntOfNatToString(n);
  }

  /** `Time` may carry spaces or tabs around the number. */
  lemma TtlOfPaddedTime(n: nat)
    requires n <= Int32Max
    ensures TtlSeconds(Some(" " + NatToString(n) + "\t")) == n
  {
    var digits := NatToString(n);
    DigitsValueOfNatToString(n);
    var lead, trail := " ", "\t";
    assert lead[0] in NumberWhite && trail[0] in NumberWhite;
    assert SignedValue("", digits) == n;
    ParseIntForm(lead, "", digits, trail);
    assert lead + "" + digits + trail == " " + NatToString(n) + "\t";
  }

  /** A no-break space in front of the number makes the parse fail, and the default 10 seconds apply. */
  lemma TtlOfNoBreakSpace(n: nat)
    ensures TtlSeconds(Some("\U{A0}" + NatToString(n))) == DefaultTtl
  {
    var text := "\U{A0}" + NatToString(n);
    assert text[0] == '\U{A0}';
    ParseIntLeadingJunk(text);
  }

  /** Any `Time` that is the text of a 32-bit integer is that many seconds. */
  lemma TtlOfNumber(lead: string, sign: string, digits: string, trail: string)
    requires NumberText(lead, sign, digits, trail) && IsInt32(SignedValue(sign, digits))
    ensures TtlSeconds(Some(lead + sign + digits + trail)) == SignedValue(sign, digits)
  {
    ParseIntForm(lead, sign, digits, trail);
  }

  /** Any other `Time` gives the default 10 seconds. */
  lemma TtlOfNonNumber(time: string)
    requires forall lead, sign, digits, trail :: NumberText(lead, sign, digits, trail) && time == lead + sign + digits + trail ==>
               !IsInt32(SignedValue(sign, digits))
    ensures TtlSeconds(Some(time)) == DefaultTtl
  {
    ParseIntOnlyNumbers(time);
  }

  /** Text after the digits makes the parse fail: "5x" gives 10 seconds. */
  lemma TtlOfTrailingJunk()
    ensures TtlSeconds(Some("5x")) == DefaultTtl
  {
  }

  /** An empty `Time` and a lone sign give 10 seconds. */
  lemma TtlOfNoDigits()
    ensures TtlSeconds(Some("")) == DefaultTtl
    ensures TtlSeconds(Some("-")) == DefaultTtl
  {
  }

  /** White space between digits makes the parse fail: "1 2" gives 10 seconds. */
  lemma TtlOfInnerSpace()
    ensures TtlSeconds(Some("1 2")) == DefaultTtl
  {
  }

  /** A count beyond 32 bits does not parse: "99999999999" gives 10 seconds. */
  lemma TtlOfTooLarge()
    ensures TtlSeconds(Some("99999999999")) == DefaultTtl
  {
    var s := "99999999999";
    ElevenNines();
    ParseIntForm("", "", s, "");
    assert "" + "" + s + "" == s;
  }

  /** The value of "99999999999", a count beyond 32 bits. */
  lemma ElevenNines()
    ensures AllDigits("99999999999") && DigitsValue("99999999999") == 99999999999
  {
    var s := "99999999999";
    SixNines();
    assert s[..6] == "999999";
    assert s[..7][..6] == s[..6] && DigitsValue(s[..7]) == 9999999;
    assert s[..8][..7] == s[..7] && DigitsValue(s[..8]) == 99999999;
    assert s[..9][..8] == s[..8] && DigitsValue(s[..9]) == 999999999;
    assert s[..10][..9] == s[..9] && DigitsValue(s[..10]) == 9999999999;
    assert s[..11][..10] == s[..10] && DigitsValue(s[..11]) == 99999999999;
    assert s[..11] == s;
  }

  /** The value of "999999". */
  lemma SixNines()
    ensures AllDigits("999999") && DigitsValue("999999") == 999999
  {
    var s := "999999";
    assert DigitsValue(s[..1]) == 9;
    assert s[..2][..1] == s[..1] && DigitsValue(s[..2]) == 99;
    assert s[..3][..2] == s[..2] && DigitsValue(s[..3]) == 999;
    assert s[..4][..3] == s[..3] && DigitsValue(s[..4]) == 9999;
    assert s[..5][..4] == s[..4] && DigitsValue(s[..5]) == 99999;
    assert s[..6][..5] == s[..5] && DigitsValue(s[..6]) == 999999;
    assert s[..6] == s;
  }

  /** The size argument: a blank `Size` is "100". */
  function SizeArgument(size: NString): (s: string)
    ensures !IsNullOrWhiteSpace(size) ==> s == size.value
  {
    if IsNullOrWhiteSpace(size) then "100" else size.value
  }

  /** The size argument is never blank: a blank `Size` becomes "100". */
  lemma SizeArgumentNotBlank(size: NString)
    ensures !IsNullOrWhiteSpace(Some(SizeArgument(size)))
    ensures IsNullOrWhiteSpace(size) ==> SizeArgument(size) == "100"
  {
    if IsNullOrWhiteSpace(size) {
      assert !IsWhiteSpace("100"[0]);
    }
  }

  // ---------------------------------------------------------------------------
  // Form state

  /** The hide timer: its interval in milliseconds and whether it runs. */
  datatype HideTimer = HideTimer(interval: int, enabled: bool)

  /** The fields the state rules update. */
  datatype FormState = FormState(
    data: Option<BannerData>,
    timer: Option<HideTimer>,
    hiding: bool,
    offset: int,
    hideLeft: int,
    disposed: bool,
    size: string,
    background: Background)

  /** A new form: no data, no timer, hide counter 100, opaque charcoal. */
  const Fresh: FormState := FormState(None, None, false, 0, 100, false, "", Background(Charcoal, Opaque))

  /** Whether `SetData(d)` goes through: not when the current data outranks `d`. */
  predicate Accepts(s: FormState, d: BannerData)
  {
    !(s.data.Some? && s.data.value.priority > d.priority)
  }

  /**
   * `SetData`: refused for lower-priority data; otherwise the data, size and
   * background are replaced, hiding is cancelled and the timer runs, with
   * the interval it was created with, or `ttl * 1000` if there was none.
   */
  function SetDataStep(s: FormState, d: BannerData): (r: FormState)
    ensures !Accepts(s, d) ==> r == s
    ensures Accepts(s, d) ==> r.data == Some(d) && !r.hiding && r.timer.Some? && r.timer.value.enabled
    ensures s.timer.Some? ==> r.timer.value.interval == s.timer.value.interval
    ensures Accepts(s, d) && s.timer.None? ==> r.timer.value.interval == TtlSeconds(d.config.time) * 1000
    ensures Accepts(s, d) ==> r.size == SizeArgument(d.config.size) && r.background == DecodeColor(d.config.color)
    ensures r.offset == s.offset && r.hideLeft == s.hideLeft && r.disposed == s.disposed
  {
    if !Accepts(s, d) then s
    else
      var interval := if s.timer.Some? then s.timer.value.interval else TtlSeconds(d.config.time) * 1000;
      s.(data := Some(d), timer := Some(HideTimer(interval, true)), hiding := false,
         size := SizeArgument(d.config.size), background := DecodeColor(d.config.color))
  }

  /** Giving the same data twice is the same as giving it once. */
  lemma SetDataIdempotent(s: FormState, d: BannerData)
    ensures SetDataStep(SetDataStep(s, d), d) == SetDataStep(s, d)
  {
  }

  /**
   * The interval is fixed by the first data a form accepts: a later request
   * with its own `Time` replaces the text but keeps the first hide delay.
   */
  lemma IntervalFixedByFirstData(d1: BannerData, d2: BannerData)
    requires Accepts(SetDataStep(Fresh, d1), d2)
    ensures SetDataStep(SetDataStep(Fresh, d1), d2).data == Some(d2)
    ensures SetDataStep(SetDataStep(Fresh, d1), d2).timer.value.interval == TtlSeconds(d1.config.time) * 1000
  {
  }

  /** Equal priority replaces; a higher current priority keeps the current data. */
  lemma PriorityGuard(s: FormState, d: BannerData)
    requires s.data.Some?
    ensures s.data.value.priority == d.priority ==> SetDataStep(s, d).data == Some(d)
    ensures s.data.value.priority > d.priority ==> SetDataStep(s, d) == s
  {
  }

  /** `TriggerHidingDisposal`: once only, it starts hiding and stops the timer. */
  function HideStep(s: FormState): (r: FormState)
    ensures r.hiding
    ensures s.hiding ==> r == s
    ensures r.timer.Some? ==> !r.timer.value.enabled || s.hiding
    ensures r.data == s.data && r.offset == s.offset && r.hideLeft == s.hideLeft && r.disposed == s.disposed
    ensures r.size == s.size && r.background == s.background
    ensures (r.timer.Some? <==> s.timer.Some?) && (r.timer.Some? ==> r.timer.value.interval == s.timer.value.interval)
  {
    if s.hiding then s
    else
      var timer := if s.timer.Some? then Some(s.timer.value.(enabled := false)) else None;
      s.(hiding := true, timer := timer)
  }

  lemma HideStepIdempotent(s: FormState)
    ensures HideStep(HideStep(s)) == HideStep(s)
  {
  }

  /**
   * `UpdateLocationOpacity` on its integer counters: the offset moves by
   * `positionChange`, the hide counter drops by `hideChange`, and the form
   * is disposed once the counter is at or below zero.
   */
  function UpdateStep(s: FormState, positionChange: int, hideChange: int): (r: FormState)
    ensures r.offset == s.offset + positionChange && r.hideLeft == s.hideLeft - hideChange
    ensures r.disposed <==> s.disposed || r.hideLeft <= 0
    ensures r.disposed && !s.disposed ==> r.hiding
    ensures r.data == s.data && r.timer == s.timer
    ensures r.size == s.size && r.background == s.background
    ensures r.hiding <==> s.hiding || r.hideLeft <= 0
  {
    var t := s.(offset := s.offset + positionChange, hideLeft := s.hideLeft - hideChange);
    if t.hideLeft <= 0 then t.(hiding := true, disposed := true) else t
  }

  /** `n` calls of `UpdateLocationOpacity` with the same arguments. */
  function UpdateRepeated(s: FormState, positionChange: int, hideChange: int, n: nat): FormState
    decreases n
  {
    if n == 0 then s else UpdateStep(UpdateRepeated(s, positionChange, hideChange, n - 1), positionChange, hideChange)
  }

  /**
   * With a positive step the countdown disposes a form exactly when `n`
   * steps have used up its hide counter: a fresh form with step `h` lasts
   * while `n * h < 100`.
   */
  lemma {:induction false} Countdown(s: FormState, positionChange: int, hideChange: nat, n: nat)
    requires hideChange > 0
    ensures UpdateRepeated(s, positionChange, hideChange, n).offset == s.offset + n * positionChange
    ensures UpdateRepeated(s, positionChange, hideChange, n).hideLeft == s.hideLeft - n * hideChange
    ensures UpdateRepeated(s, positionChange, hideChange, n).disposed <==>
              s.disposed || (n > 0 && s.hideLeft - n * hideChange <= 0)
    decreases n
  {
    if n > 0 {
      Countdown(s, positionChange, hideChange, n - 1);
      if n - 1 > 0 && s.hideLeft - (n - 1) * hideChange <= 0 {
        assert s.hideLeft - n * hideChange <= s.hideLeft - (n - 1) * hideChange;
      }
    }
  }

  /** The accepted branch of `SetDataStep`, field by field. */
  lemma SetDataApplies(s: FormState, d: BannerData, size: string, color: Background, timer: HideTimer)
    requires Accepts(s, d)
    requires size == SizeArgument(d.config.size) && color == DecodeColor(d.config.color)
    requires timer.enabled
    requires timer.interval == if s.timer.Some? then s.timer.value.interval else TtlSeconds(d.config.time) * 1000
    ensures SetDataStep(s, d) == s.(data := Some(d), timer := Some(timer), hiding := false, size := size, background := color)
  {
  }

  // ---------------------------------------------------------------------------
  // The form object

  class BannerForm {
    var currentData: Option<BannerData>
    var timerHide: Option<HideTimer>
    var hiding: bool
    var currentOffset: int
    var hideLeft: int
    var disposed: bool
    var sizeArgument: string
    var background: Background

    function State(): FormState
      reads this
    {
      FormState(currentData, timerHide, hiding, currentOffset, hideLeft, disposed, sizeArgument, background)
    }

    constructor ()
      ensures State() == Fresh
    {
      currentData := None;
      timerHide := None;
      hiding := false;
      currentOffset := 0;
      hideLeft := 100;
      disposed := false;
      sizeArgument := "";
      background := Background(Charcoal, Opaque);
    }

    /** `SetData`, proved against `SetDataStep`. */
    method SetData(data: BannerData)
      modifies this
      ensures State() == SetDataStep(old(State()), data)
    {
      if currentData.Some? && currentData.value.priority > data.priority {
        assert !Accepts(State(), data);
        return;
      }
      ghost var before := State();
      var size := SizeArgument(data.config.size);
      var color := DecodeColor(data.config.color);
      var ttl := TtlSeconds(data.config.time);
      currentData := Some(data);
      if timerHide.None? {
        timerHide := Some(HideTimer(ttl * 1000, false));
      } else {
        timerHide := Some(timerHide.value.(enabled := false));
      }
      sizeArgument := size;
      background := color;
      hiding := false;
      timerHide := Some(timerHide.value.(enabled := true));
      assert Accepts(before, data);
      SetDataApplies(before, data, size, color, timerHide.value);
    }

    /** `TriggerHidingDisposal`, proved against `HideStep`. */
    method TriggerHidingDisposal()
      modifies this
      ensures State() == HideStep(old(State()))
    {
      if hiding {
        return;
      }
      hiding := true;
      if timerHide.Some? {
        timerHide := Some(timerHide.value.(enabled := false));
      }
    }

    /** `UpdateLocationOpacity` on its integer counters, proved against `UpdateStep`. */
    method UpdateLocationOpacity(positionChange: int, hideChange: int)
      modifies this
      ensures State() == UpdateStep(old(State()), positionChange, hideChange)
    {
      currentOffset := currentOffset + positionChange;
      hideLeft := hideLeft - hideChange;
      if hideLeft <= 0 {
        hiding := true;
        disposed := true;
      }
    }
  }
}
