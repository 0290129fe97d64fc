/**
 * The time-of-day form component: one field `key` shown as three inputs `key-hour`,
 * `key-minute` and `key-second`. Before processing, the three parts are padded and joined
 * into `key` as HH:MM:SS; after reading values or errors, a stored time is split back into
 * its parts. The component is configured once with defaults for the options it does not get.
 */
module TimeComponent {
  import opened Common

  datatype TimePart = Hour | Minute | Second

  function PartName(p: TimePart): string
  {
    match p
    case Hour => "hour"
    case Minute => "minute"
    case Second => "second"
  }

  /**
   * The keys of a request body or form values as the component sees them: its own field, one
   * of its three part fields, or any other key (by name).
   */
  datatype TimeKey = Whole | Part(part: TimePart) | Other(name: string)

  /** The key name a TimeKey stands for, for a component configured with `key`. */
  function KeyName(key: string, k: TimeKey): string
  {
    match k
    case Whole => key
    case Part(p) => key + "-" + PartName(p)
    case Other(name) => name
  }

  /** getParts strips the `<key>-` prefix from a part field's name, leaving the part's name. */
  lemma PartKeyStripped(key: string, p: TimePart)
    ensures ReplaceFirst(KeyName(key, Part(p)), key + "-", "") == PartName(p)
  {
    ReplacePrefix(key + "-", PartName(p));
    assert KeyName(key, Part(p)) == (key + "-") + PartName(p);
  }

  // Options.

  /** The settings of one part input; nil where the caller gave none. */
  datatype PartSettings = PartSettings(min: Option<int>, max: Option<int>, maxLength: Option<int>, pattern: Option<string>)

  /** The options the component is created with; nil where the caller gave none. */
  datatype TimeOptions = TimeOptions(
    minutesOptional: Option<bool>,
    secondsOptional: Option<bool>,
    hour: Option<PartSettings>,
    minute: Option<PartSettings>,
    second: Option<PartSettings>)

  /** The component after configuration: the hooks' two flags and the part settings with defaults. */
  datatype TimeConfig = TimeConfig(
    key: string,
    minutesOptional: bool,
    secondsOptional: bool,
    hour: PartSettings,
    minute: PartSettings,
    second: PartSettings,
    validate: string)

  /** The pattern every time value is validated against: a 24-hour time with seconds 00, or nothing. */
  const TimePattern := "([0-1]{1}[0-9]{1}|20|21|22|23):[0-5]{1}[0-9]{1}:00|^$"

  function DefaultSettings(max: int): PartSettings
  {
    PartSettings(Some(0), Some(max), Some(2), Some("[0-9]*"))
  }

  function OrDefault<T>(v: Option<T>, d: T): T
  {
    if v.Some? then v.value else d
  }

  /** The given setting, or the default one when none was given. */
  function Either<T>(given: Option<T>, d: Option<T>): Option<T>
  {
    if given.Some? then given else d
  }

  /** `_.defaultsDeep` on one part's settings: each setting the caller left out takes the default. */
  function FillSettings(given: Option<PartSettings>, d: PartSettings): (r: PartSettings)
  {
    match given
    case None => d
    case Some(g) => PartSettings(Either(g.min, d.min), Either(g.max, d.max), Either(g.maxLength, d.maxLength),
                                 Either(g.pattern, d.pattern))
  }

  /**
   * Creating the component: it throws without a key; otherwise minutes are required and
   * seconds optional unless the options say otherwise, optional minutes make seconds optional
   * too, and each part setting the caller left out takes its default (0 to 23 for the hour,
   * 0 to 59 for minutes and seconds, two characters, digits only).
   */
  function Configure(key: Option<string>, options: TimeOptions): (r: Outcome<TimeConfig>)
    ensures r.Thrown? <==> !Truthy(key)
    ensures r.Done? ==> r.value.key == key.value
    ensures r.Done? ==> r.value.minutesOptional == (options.minutesOptional == Some(true))
    ensures r.Done? ==>
      (r.value.secondsOptional <==> options.minutesOptional == Some(true) || options.secondsOptional != Some(false))
    ensures r.Done? ==> r.value.validate == TimePattern
  {
    if !Truthy(key) then Thrown("Key must be passed to the time component")
    else
      var minutesOptional := OrDefault(options.minutesOptional, false);
      var secondsOptional := minutesOptional || OrDefault(options.secondsOptional, true);
      Done(TimeConfig(key.value, minutesOptional, secondsOptional,
                      FillSettings(options.hour, DefaultSettings(23)),
                      FillSettings(options.minute, DefaultSettings(59)),
                      FillSettings(options.second, DefaultSettings(59)),
                      TimePattern))
  }

  /** A part setting given by the caller wins; one left out takes the default. */
  lemma SettingsDefaults(given: Option<PartSettings>, d: PartSettings)
    requires d.min.Some? && d.max.Some? && d.maxLength.Some? && d.pattern.Some?
    ensures var r := FillSettings(given, d);
      && (r.min == if given.Some? && given.value.min.Some? then given.value.min else d.min)
      && (r.max == if given.Some? && given.value.max.Some? then given.value.max else d.max)
      && (r.maxLength == if given.Some? && given.value.maxLength.Some? then given.value.maxLength else d.maxLength)
      && (r.pattern == if given.Some? && given.value.pattern.Some? then given.value.pattern else d.pattern)
  {
  }

  // Parts and the joined time.

  /**
   * pad: the trimmed part, with a '0' in front when the part as typed is a single character
   * that is not whitespace. A missing part gives ''.
   */
  function Pad(num: Option<string>): string
  {
    match num
    case None => ""
    case Some(s) =>
      var t := Trim(s);
      if t != "" && |s| < 2 then "0" + t else t
  }

  predicate IsDigit(c: char)
  {
    '0' <= c <= '9'
  }

  /** A part typed as one or two digits is padded to two digits: a single digit gets a leading zero. */
  lemma PadDigits(s: string)
    requires 1 <= |s| <= 2 && forall k :: 0 <= k < |s| ==> IsDigit(s[k])
    ensures Pad(Some(s)) == if |s| == 1 then "0" + s else s
    ensures |Pad(Some(s))| == 2
  {
    assert !IsSpace(s[0]) && !IsSpace(s[|s| - 1]);
    TrimUntouched(s);
    assert Trim(s) == s;
    assert Pad(Some(s)) == if |s| < 2 then "0" + s else s;
  }

  /** A part that is nothing but whitespace pads to ''. */
  lemma PadBlank(s: string)
    requires forall k :: 0 <= k < |s| ==> IsSpace(s[k])
    ensures Pad(Some(s)) == ""
  {
    TrimEmpty(s);
  }

  /**
   * The leading zero depends on the length as typed, before trimming: a digit with a space
   * beside it is trimmed but not padded.
   */
  lemma PadSpacedDigit(d: char)
    requires IsDigit(d)
    ensures Pad(Some([d, ' '])) == [d]
    ensures Pad(Some([' ', d])) == [d]
  {
    assert TrimStart([d, ' ']) == [d, ' '];
    assert TrimEnd([d, ' ']) == TrimEnd([d]);
    assert TrimEnd([d]) == [d];
    assert TrimStart([' ', d]) == TrimStart([d]);
    assert TrimStart([d]) == [d];
    assert TrimEnd([d]) == [d];
  }

  /** `_.trim(part) !== ''` for a part that may be missing. */
  predicate Filled(part: Option<string>)
  {
    part.Some? && Trim(part.value) != ""
  }

  /** A minute or second: '00' when optional and left empty, the padded part otherwise. */
  function PartOrZero(part: Option<string>, optional: bool): string
  {
    if optional && !Truthy(part) then "00" else Pad(part)
  }

  /**
   * The time preProcess writes into the body, or nil when it writes nothing: the hour is
   * padded first, and only when some part is then non-blank are minute and second settled
   * and the three joined as hour:minute:second.
   */
  function ProcessedTime(body: map<TimeKey, string>, minutesOptional: bool, secondsOptional: bool): Option<string>
  {
    var hour := Pad(Lookup(body, Part(Hour)));
    if Trim(hour) != "" || Filled(Lookup(body, Part(Minute))) || Filled(Lookup(body, Part(Second))) then
      Some(hour + ":" + PartOrZero(Lookup(body, Part(Minute)), minutesOptional) + ":"
           + PartOrZero(Lookup(body, Part(Second)), secondsOptional))
    else None
  }

  /** Trimming twice trims nothing more. */
  lemma TrimTwice(s: string)
    ensures Trim(Trim(s)) == Trim(s)
  {
    TrimmedEnds(s);
    TrimUntouched(Trim(s));
  }

  /** The padded hour is blank exactly when the hour as typed is. */
  lemma PaddedHourBlank(part: Option<string>)
    ensures Trim(Pad(part)) != "" <==> Filled(part)
  {
    if part.Some? {
      var s := part.value;
      TrimTwice(s);
      if Trim(s) != "" && |s| < 2 {
        var r := "0" + Trim(s);
        TrimmedEnds(s);
        TrimUntouched(r);
      }
    }
  }

  /** preProcess leaves the body alone exactly when every part is missing or blank. */
  lemma NothingTypedNothingWritten(body: map<TimeKey, string>, minutesOptional: bool, secondsOptional: bool)
    ensures ProcessedTime(body, minutesOptional, secondsOptional).None? <==>
      !Filled(Lookup(body, Part(Hour))) && !Filled(Lookup(body, Part(Minute))) && !Filled(Lookup(body, Part(Second)))
  {
    PaddedHourBlank(Lookup(body, Part(Hour)));
  }

  /** Two digits. */
  predicate TwoDigits(s: string)
  {
    |s| == 2 && IsDigit(s[0]) && IsDigit(s[1])
  }

  /** One or two digits, as typed into a part. */
  predicate ShortNumber(s: string)
  {
    1 <= |s| <= 2 && forall k :: 0 <= k < |s| ==> IsDigit(s[k])
  }

  /** One or two digits pad to two digits. */
  lemma PadShort(s: string)
    requires ShortNumber(s)
    ensures TwoDigits(Pad(Some(s)))
  {
    assert !IsSpace(s[0]) && !IsSpace(s[|s| - 1]);
    TrimUntouched(s);
    if |s| == 1 {
      assert Pad(Some(s)) == ['0', s[0]];
    } else {
      assert Pad(Some(s)) == [s[0], s[1]];
    }
  }

  /** A minute or second typed as one or two digits, or optional and left empty, settles to two digits. */
  lemma SettledPart(part: Option<string>, optional: bool)
    requires (optional && !Truthy(part)) || (part.Some? && ShortNumber(part.value))
    ensures TwoDigits(PartOrZero(part, optional))
    ensures optional && !Truthy(part) ==> PartOrZero(part, optional) == "00"
  {
    if !(optional && !Truthy(part)) {
      PadShort(part.value);
      assert PartOrZero(part, optional) == Pad(part);
    } else {
      assert PartOrZero(part, optional) == "00";
      assert TwoDigits("00");
    }
  }

  /** Three two-digit texts joined with ':' read back at fixed positions. */
  lemma JoinedShape(h: string, m: string, s: string)
    requires TwoDigits(h) && TwoDigits(m) && TwoDigits(s)
    ensures var t := h + ":" + m + ":" + s;
      |t| == 8 && t[2] == ':' && t[5] == ':' && t[0..2] == h && t[3..5] == m && t[6..8] == s
  {
  }

  /**
   * With one or two digits typed for the hour, and for the minute and second unless they are
   * optional and left empty, preProcess writes a time of the form HH:MM:SS; an optional part
   * left empty reads 00.
   */
  lemma ProcessedTimeShape(body: map<TimeKey, string>, minutesOptional: bool, secondsOptional: bool)
    requires Part(Hour) in body && ShortNumber(body[Part(Hour)])
    requires (minutesOptional && !Truthy(Lookup(body, Part(Minute)))) || (Part(Minute) in body && ShortNumber(body[Part(Minute)]))
    requires (secondsOptional && !Truthy(Lookup(body, Part(Second)))) || (Part(Second) in body && ShortNumber(body[Part(Second)]))
    ensures var t := ProcessedTime(body, minutesOptional, secondsOptional);
      && t.Some? && |t.value| == 8 && t.value[2] == ':' && t.value[5] == ':'
      && TwoDigits(t.value[0..2]) && TwoDigits(t.value[3..5]) && TwoDigits(t.value[6..8])
      && (minutesOptional && !Truthy(Lookup(body, Part(Minute))) ==> t.value[3..5] == "00")
      && (secondsOptional && !Truthy(Lookup(body, Part(Second))) ==> t.value[6..8] == "00")
  {
    var hourPart := Lookup(body, Part(Hour));
    PadShort(hourPart.value);
    TrimUntouched(hourPart.value);
    PaddedHourBlank(hourPart);
    var hour := Pad(hourPart);
    var minute := PartOrZero(Lookup(body, Part(Minute)), minutesOptional);
    var second := PartOrZero(Lookup(body, Part(Second)), secondsOptional);
    SettledPart(Lookup(body, Part(Minute)), minutesOptional);
    SettledPart(Lookup(body, Part(Second)), secondsOptional);
    assert Trim(hour) != "";
    assert ProcessedTime(body, minutesOptional, secondsOptional) == Some(hour + ":" + minute + ":" + second);
    JoinedShape(hour, minute, second);
  }

  /** The key getPartsFromTime gives the i-th piece: the i-th part field, or 'undefined' past the third. */
  function FieldAt(i: nat): TimeKey
  {
    if i == 0 then Part(Hour) else if i == 1 then Part(Minute) else if i == 2 then Part(Second) else Other("undefined")
  }

  /** The pieces assigned in order to the fields, a later piece overwriting an earlier one. */
  function AssignPieces(pieces: seq<string>): (r: map<TimeKey, string>)
    ensures forall k :: k in r <==> exists i :: 0 <= i < |pieces| && k == FieldAt(i)
    ensures forall i :: 0 <= i < |pieces| && i < 3 ==> FieldAt(i) in r && r[FieldAt(i)] == pieces[i]
    ensures |pieces| > 3 ==> Other("undefined") in r && r[Other("undefined")] == pieces[|pieces| - 1]
  {
    if pieces == [] then map[]
    else
      var n := |pieces| - 1;
      var r := AssignPieces(pieces[..n])[FieldAt(n) := pieces[n]];
      assert forall i :: 0 <= i < n ==> pieces[..n][i] == pieces[i];
      r
  }

  /** getPartsFromTime: the time split at ':' and assigned to hour, minute and second in order. */
  function PartsFromTime(time: string): map<TimeKey, string>
  {
    AssignPieces(Split(time, ":"))
  }

  /**
   * Splitting a joined time gives back the three parts it was joined from, provided none of
   * them holds a ':'; this is what postGetValues shows after preProcess.
   */
  lemma PartsRoundTrip(hour: string, minute: string, second: string)
    requires !Includes(hour, ":") && !Includes(minute, ":") && !Includes(second, ":")
    ensures PartsFromTime(hour + ":" + minute + ":" + second)
      == map[Part(Hour) := hour, Part(Minute) := minute, Part(Second) := second]
  {
    var parts := [hour, minute, second];
    JoinThree(hour, minute, second, ":");
    SplitJoin(parts, ":");
    AssignThree(parts);
  }

  lemma AssignThree(pieces: seq<string>)
    requires |pieces| == 3
    ensures AssignPieces(pieces) == map[Part(Hour) := pieces[0], Part(Minute) := pieces[1], Part(Second) := pieces[2]]
  {
    var r := AssignPieces(pieces);
    assert FieldAt(0) == Part(Hour) && FieldAt(1) == Part(Minute) && FieldAt(2) == Part(Second);
    assert forall k :: k in r <==> k == Part(Hour) || k == Part(Minute) || k == Part(Second);
  }

  /** A field error the form wizard records; `type` nil marks an error shown without a message. */
  datatype FieldError = FieldError(errorType: Option<string>)

  /**
   * One request seen by the component's hooks: the posted body, the form values, the form
   * errors, and the session's errorValues and errors entries (the latter two keyed as the
   * component sees them).
   */
  class TimeRequest {
    var body: map<TimeKey, string>
    var values: map<TimeKey, string>
    var formErrors: map<TimeKey, FieldError>
    var errorValues: Option<map<TimeKey, string>>
    const sessionErrors: Option<map<TimeKey, FieldError>>

    constructor (body: map<TimeKey, string>, values: map<TimeKey, string>, formErrors: map<TimeKey, FieldError>,
                 errorValues: Option<map<TimeKey, string>>, sessionErrors: Option<map<TimeKey, FieldError>>)
      ensures this.body == body && this.values == values && this.formErrors == formErrors
      ensures this.errorValues == errorValues && this.sessionErrors == sessionErrors
    {
      this.body := body;
      this.values := values;
      this.formErrors := formErrors;
      this.errorValues := errorValues;
      this.sessionErrors := sessionErrors;
    }

    /**
     * pre-process: when some part is filled in, the joined time is written to the component's
     * own field and the rest of the body is left alone; otherwise nothing changes.
     */
    method PreProcess(config: TimeConfig)
      modifies this`body
      ensures ProcessedTime(old(body), config.minutesOptional, config.secondsOptional).None? ==> body == old(body)
      ensures ProcessedTime(old(body), config.minutesOptional, config.secondsOptional).Some? ==>
        body == old(body)[Whole := ProcessedTime(old(body), config.minutesOptional, config.secondsOptional).value]
    {
      ghost var time := ProcessedTime(body, config.minutesOptional, config.secondsOptional);
      var hour := Pad(Lookup(body, Part(Hour)));
      var minute := Lookup(body, Part(Minute));
      var second := Lookup(body, Part(Second));
      if Trim(hour) != "" || Filled(minute) || Filled(second) {
        var m := if config.minutesOptional && !Truthy(minute) then "00" else Pad(minute);
        var s := if config.secondsOptional && !Truthy(second) then "00" else Pad(second);
        assert m == PartOrZero(minute, config.minutesOptional) && s == PartOrZero(second, config.secondsOptional);
        assert time == Some(hour + ":" + m + ":" + s);
        body := body[Whole := hour + ":" + m + ":" + s];
      } else {
        assert time.None?;
      }
    }

    /**
     * post-getValues: when the component's field holds a time, its pieces are added to the form
     * values, and the session's errorValues (if any) are laid over them.
     */
    method PostGetValues()
      modifies this`values
      ensures !Truthy(Lookup(old(values), Whole)) ==> values == old(values)
      ensures Truthy(Lookup(old(values), Whole)) ==>
        values == old(values) + PartsFromTime(old(values)[Whole]) + OrDefault(errorValues, map[])
    {
      var time := Lookup(values, Whole);
      if Truthy(time) {
        values := values + PartsFromTime(time.value) + OrDefault(errorValues, map[]);
      }
    }

    /** pre-getErrors: a time among the session's errorValues is also split into its parts there. */
    method PreGetErrors()
      modifies this`errorValues
      ensures old(errorValues).Some? && Truthy(Lookup(old(errorValues).value, Whole)) ==>
        errorValues == Some(old(errorValues).value + PartsFromTime(old(errorValues).value[Whole]))
      ensures !(old(errorValues).Some? && Truthy(Lookup(old(errorValues).value, Whole))) ==> errorValues == old(errorValues)
    {
      if errorValues.Some? && Truthy(Lookup(errorValues.value, Whole)) {
        errorValues := Some(errorValues.value + PartsFromTime(errorValues.value[Whole]));
      }
    }

    /**
     * post-getErrors: when the session holds an error for the component's field, each of the
     * three part fields gets an error without a message (so the message is not shown twice).
     */
    method PostGetErrors()
      modifies this`formErrors
      ensures !(sessionErrors.Some? && Whole in sessionErrors.value) ==> formErrors == old(formErrors)
      ensures sessionErrors.Some? && Whole in sessionErrors.value ==>
        && (forall p :: Part(p) in formErrors && formErrors[Part(p)] == FieldError(None))
        && (forall k: TimeKey :: !k.Part? ==> (k in formErrors <==> k in old(formErrors)))
        && (forall k: TimeKey :: !k.Part? && k in formErrors ==> formErrors[k] == old(formErrors)[k])
    {
      if sessionErrors.Some? && Whole in sessionErrors.value {
        formErrors := formErrors[Part(Hour) := FieldError(None)][Part(Minute) := FieldError(None)]
                                [Part(Second) := FieldError(None)];
        forall p: TimePart
          ensures Part(p) in formErrors && formErrors[Part(p)] == FieldError(None)
        {
          assert p.Hour? || p.Minute? || p.Second?;
        }
      }
    }
  }
}
