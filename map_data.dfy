// Define/MapData.cpp: the tunable game constants, the name table that lets a text file
// override them, and the loader that applies the file line by line.
module MapData {
  /** `ETypeToken`: how a constant is stored. */
  datatype TokenType = Digit | Float

  /** A constant's stored value: an `Int32` or a `Double`. */
  datatype Value = DigitValue(i: int) | FloatValue(r: real)

  datatype Option<T> = None | Some(value: T)

  /** `Constant::TickTerm`, milliseconds per server tick; it is not in the name table,
      so no file can change it. */
  const TickTerm: int := 1000 / 60

  /** `getline` reads into a 4096-byte buffer: a line of 4096 characters or more fails
      the read and ends the loop. */
  const LineCapacity: nat := 4096

  /** The constants a file may assign, one per entry of `variableMaps`. */
  datatype Name =
    | MaxUserCount
    | MapSize
    | SpawnPointRatio
    | CharacterRadius
    | CharacterWeight
    | CharacterSpring
    | CharacterDefaultSpeed
    | CharacterRotateSpeed
    | CharacterRushSpeed
    | CharacterFriction
    | CharacterMapOutSpeed
    | DefaultHeight
    | RespawnHeight
    | CollideForceRatio
    | MaxSpeed
    | MaxRushCount
    | KillerScore
    | DieScore
    | SelfDieScore
    | RushCountRegenTime
    | RespawnTime
    | FirstWaitTime
    | TotalGameTime
    | RushMinimumRecastTime
    | KillerJudgeTime

  /** The type `variableMaps` records for each constant. */
  function KindOf(n: Name): TokenType {
    match n
    case MaxUserCount | MaxRushCount | KillerScore | DieScore | SelfDieScore => Digit
    case _ => Float
  }

  /** The key of each entry: the constant's name as text. */
  function Text(n: Name): string {
    match n
    case MaxUserCount => "MaxUserCount"
    case MapSize => "MapSize"
    case SpawnPointRatio => "SpawnPointRatio"
    case CharacterRadius => "CharacterRadius"
    case CharacterWeight => "CharacterWeight"
    case CharacterSpring => "CharacterSpring"
    case CharacterDefaultSpeed => "CharacterDefaultSpeed"
    case CharacterRotateSpeed => "CharacterRotateSpeed"
    case CharacterRushSpeed => "CharacterRushSpeed"
    case CharacterFriction => "CharacterFriction"
    case CharacterMapOutSpeed => "CharacterMapOutSpeed"
    case DefaultHeight => "DefaultHeight"
    case RespawnHeight => "RespawnHeight"
    case CollideForceRatio => "CollideForceRatio"
    case MaxSpeed => "MaxSpeed"
    case MaxRushCount => "MaxRushCount"
    case KillerScore => "KillerScore"
    case DieScore => "DieScore"
    case SelfDieScore => "SelfDieScore"
    case RushCountRegenTime => "RushCountRegenTime"
    case RespawnTime => "RespawnTime"
    case FirstWaitTime => "FirstWaitTime"
    case TotalGameTime => "TotalGameTime"
    case RushMinimumRecastTime => "RushMinimumRecastTime"
    case KillerJudgeTime => "KillerJudgeTime"
  }

  /** `variableMaps.find( token )`: the entry whose name is `token`, if any. */
  function Lookup(token: string): (r: Option<Name>)
    ensures r.Some? ==> Text(r.value) == token
    ensures r.None? ==> forall n :: n in TableOrder() ==> Text(n) != token
  {
    Find(token, TableOrder())
  }

  /** The first of `names` whose text is `token`. */
  function Find(token: string, names: seq<Name>): (r: Option<Name>)
    ensures r.Some? ==> r.value in names && Text(r.value) == token
    ensures r.None? ==> forall k :: 0 <= k < |names| ==> Text(names[k]) != token
  {
    if names == [] then None
    else if Text(names[0]) == token then Some(names[0])
    else Find(token, names[1..])
  }

  /** The entries in the order a `std::map` keyed by `std::string` visits them
      (byte-wise lexicographic order of their names). */
  function TableOrder(): (names: seq<Name>)
    ensures |names| == 25
  {
    [CharacterDefaultSpeed, CharacterFriction, CharacterMapOutSpeed, CharacterRadius, CharacterRotateSpeed, CharacterRushSpeed, CharacterSpring, CharacterWeight, CollideForceRatio, DefaultHeight, DieScore, FirstWaitTime, KillerJudgeTime, KillerScore, MapSize, MaxRushCount, MaxSpeed, MaxUserCount, RespawnHeight, RespawnTime, RushCountRegenTime, RushMinimumRecastTime, SelfDieScore, SpawnPointRatio, TotalGameTime]
  }

  /** Where each entry sits in `TableOrder`. */
  function Position(n: Name): nat {
    match n
    case CharacterDefaultSpeed => 0
    case CharacterFriction => 1
    case CharacterMapOutSpeed => 2
    case CharacterRadius => 3
    case CharacterRotateSpeed => 4
    case CharacterRushSpeed => 5
    case CharacterSpring => 6
    case CharacterWeight => 7
    case CollideForceRatio => 8
    case DefaultHeight => 9
    case DieScore => 10
    case FirstWaitTime => 11
    case KillerJudgeTime => 12
    case KillerScore => 13
    case MapSize => 14
    case MaxRushCount => 15
    case MaxSpeed => 16
    case MaxUserCount => 17
    case RespawnHeight => 18
    case RespawnTime => 19
    case RushCountRegenTime => 20
    case RushMinimumRecastTime => 21
    case SelfDieScore => 22
    case SpawnPointRatio => 23
    case TotalGameTime => 24
  }

  /** Every entry of the table appears in that order, at its `Position`. */
  lemma TableOrderComplete()
    ensures forall n :: Position(n) < |TableOrder()| && TableOrder()[Position(n)] == n
  {
  }

  /** A value fits the variable it is stored in. */
  predicate Fits(kind: TokenType, v: Value) {
    match kind
    case Digit => v.DigitValue?
    case Float => v.FloatValue?
  }

  /** One value per constant, each of its constant's type. */
  ghost predicate WellTyped(values: map<Name, Value>) {
    forall n :: n in values && Fits(KindOf(n), values[n])
  }

  /** The values the constants are initialised with (`SelfDieScore` copies `DieScore`). */
  function DefaultOf(n: Name): (v: Value)
    ensures Fits(KindOf(n), v)
  {
    match KindOf(n)
    case Digit => DigitValue(DigitDefault(n))
    case Float => FloatValue(FloatDefault(n))
  }

  /** The initial value of an `Int32` constant. */
  function DigitDefault(n: Name): int
    requires KindOf(n) == Digit
  {
    match n
    case MaxUserCount => 3
    case MaxRushCount => 3
    case KillerScore => 1
    case DieScore => -1
    case SelfDieScore => -1
  }

  /** The initial value of a `Double` constant. */
  function FloatDefault(n: Name): real
    requires KindOf(n) == Float
  {
    match n
    case MapSize => 1350.0
    case SpawnPointRatio => 0.75
    case CharacterRadius => 150.0
    case CharacterWeight => 10.0
    case CharacterSpring => 1.0
    case CharacterDefaultSpeed => 600.0
    case CharacterRotateSpeed => 360.0
    case CharacterRushSpeed => 1000.0
    case CharacterFriction => 1000.0
    case CharacterMapOutSpeed => 300.0
    case DefaultHeight => -84.787506
    case RespawnHeight => -84.787506
    case CollideForceRatio => 1.0
    case MaxSpeed => 2000.0
    case RushCountRegenTime => 7.0
    case RespawnTime => 1.5
    case FirstWaitTime => 1.5
    case TotalGameTime => 90.0
    case RushMinimumRecastTime => 1.0
    case KillerJudgeTime => 1.0
  }

  /** The constants as the program starts. */
  function Defaults(): (values: map<Name, Value>)
    ensures WellTyped(values)
  {
    EveryNameListed();
    map n | n in TableOrder() :: DefaultOf(n)
  }

  /** The table lists every constant. */
  lemma EveryNameListed()
    ensures forall n :: n in TableOrder()
  {
    TableOrderComplete();
    forall n ensures n in TableOrder() {
      assert TableOrder()[Position(n)] == n;
    }
  }

  /** C++'s floating-to-integer conversion: the fraction is dropped, toward zero. */
  function Truncate(v: real): (n: int)
    ensures v >= 0.0 ==> 0.0 <= n as real <= v < n as real + 1.0
    ensures v < 0.0 ==> n as real - 1.0 < v <= n as real <= 0.0
  {
    if v >= 0.0 then v.Floor else -((-v).Floor)
  }

  /** An integer converts to floating point and back unchanged. */
  lemma TruncateWhole(n: int)
    ensures Truncate(n as real) == n
  {
  }

  /** How a value read from the file is stored in a variable of the given type. */
  function Convert(kind: TokenType, value: real): (v: Value)
    ensures Fits(kind, v)
  {
    match kind
    case Digit => DigitValue(Truncate(value))
    case Float => FloatValue(value)
  }

  /** `TokenReadValue`: an unknown name changes nothing; a known one takes the value,
      truncated for an integer variable. */
  function ReadValue(values: map<Name, Value>, token: string, value: real): (r: map<Name, Value>)
    ensures WellTyped(values) ==> WellTyped(r)
  {
    match Lookup(token)
    case None => values
    case Some(n) => values[n := Convert(KindOf(n), value)]
  }

  /** A widened read of a variable (`TokenOutValue`). */
  function OutValue(v: Value): real {
    match v
    case DigitValue(i) => i as real
    case FloatValue(r) => r
  }

  /** An unknown name leaves every constant as it was. */
  lemma UnknownTokenChangesNothing(values: map<Name, Value>, token: string, value: real)
    requires Lookup(token).None?
    ensures ReadValue(values, token, value) == values
  {
  }

  /** A known name changes its own constant, to the converted value, and no other. */
  lemma KnownTokenChangesOnlyItself(values: map<Name, Value>, token: string, value: real)
    requires WellTyped(values) && Lookup(token).Some?
    ensures var r := ReadValue(values, token, value);
            var n := Lookup(token).value;
            (KindOf(n) == Digit ==> r[n] == DigitValue(Truncate(value)))
            && (KindOf(n) == Float ==> r[n] == FloatValue(value))
            && forall m :: m != n ==> r[m] == values[m]
  {
  }

  /** Writing back what was read from an integer constant leaves the constants as they
      were. */
  lemma DigitRoundTrip(values: map<Name, Value>, token: string)
    requires WellTyped(values) && Lookup(token).Some? && KindOf(Lookup(token).value) == Digit
    ensures ReadValue(values, token, OutValue(values[Lookup(token).value])) == values
  {
    TruncateWhole(values[Lookup(token).value].i);
  }

  // ---------------------------------------------------------------- scanning a line

  /** The characters `isspace` accepts. */
  predicate IsSpace(c: char) {
    c == ' ' || c == '\t' || c == '\n' || c == '\r' || c == '\U{0B}' || c == '\U{0C}'
  }

  /** What a line is left with once its leading white space is skipped. */
  function SkipSpace(s: string): (r: string)
    ensures |r| <= |s| && r == s[|s| - |r|..]
    ensures r == [] || !IsSpace(r[0])
    ensures forall k :: 0 <= k < |s| - |r| ==> IsSpace(s[k])
  {
    if s != [] && IsSpace(s[0]) then SkipSpace(s[1..]) else s
  }

  /** The longest prefix without white space: what `%s` reads. */
  function Word(s: string): (w: string)
    ensures |w| <= |s| && w == s[..|w|]
    ensures forall k :: 0 <= k < |w| ==> !IsSpace(w[k])
    ensures |w| == |s| || IsSpace(s[|w|])
  {
    if s == [] || IsSpace(s[0]) then [] else [s[0]] + Word(s[1..])
  }

  /** What `sscanf( line, "%s = %f", ... )` assigns: the name, when the line holds
      anything but white space, and the number, when the name is followed by `=` and
      text that `parseFloat` (the `%f` conversion) accepts. */
  datatype Scan = Scan(token: Option<string>, value: Option<real>)

  function ScanLine(line: string, parseFloat: string -> Option<real>): (r: Scan)
    ensures r.token.None? ==> r.value.None? && forall k :: 0 <= k < |line| ==> IsSpace(line[k])
    ensures r.token.Some? ==> r.token.value != [] && forall k :: 0 <= k < |r.token.value| ==> !IsSpace(r.token.value[k])
  {
    var s := SkipSpace(line);
    if s == [] then Scan(None, None)
    else
      var w := Word(s);
      var after := SkipSpace(s[|w|..]);
      if after == [] || after[0] != '=' then Scan(Some(w), None)
      else Scan(Some(w), parseFloat(SkipSpace(after[1..])))
  }

  /** The name `ScanLine` reads is the line's first word: after the leading white
      space, it runs up to the next white space or the end of the line. */
  lemma ScanLineReadsFirstWord(line: string, parseFloat: string -> Option<real>)
    ensures var r, s := ScanLine(line, parseFloat), SkipSpace(line);
            r.token.Some? <==> s != []
    ensures var r, s := ScanLine(line, parseFloat), SkipSpace(line);
            r.token.Some? ==>
              var w := r.token.value;
              |w| <= |s| && w == s[..|w|] && (|w| == |s| || IsSpace(s[|w|]))
  {
  }

  /** A number is read exactly when the first word is followed, white space aside, by
      `=` and text the `%f` conversion accepts; it is that conversion's result. */
  lemma ScanLineReadsNumber(line: string, parseFloat: string -> Option<real>)
    ensures var r, s := ScanLine(line, parseFloat), SkipSpace(line);
            r.token.Some? ==>
              var after := SkipSpace(s[|r.token.value|..]);
              (r.value.Some? <==> after != [] && after[0] == '=' && parseFloat(SkipSpace(after[1..])).Some?)
              && (r.value.Some? ==> r.value == parseFloat(SkipSpace(after[1..])))
  {
  }

  /** A comment line: its first character is `#`. */
  predicate IsComment(line: string) {
    |line| > 0 && line[0] == '#'
  }

  /** What the loader carries from line to line: the constants, and the name and the
      number its scan buffers still hold. */
  datatype Cursor = Cursor(values: map<Name, Value>, token: string, value: real)

  /** One line that is not a comment: the scan overwrites the name and the number it
      reads, the others stay, and `TokenReadValue` applies the pair. */
  function Step(c: Cursor, line: string, parseFloat: string -> Option<real>): (r: Cursor)
    ensures WellTyped(c.values) ==> WellTyped(r.values)
  {
    var sc := ScanLine(line, parseFloat);
    var t := if sc.token.Some? then sc.token.value else c.token;
    var v := if sc.value.Some? then sc.value.value else c.value;
    Cursor(ReadValue(c.values, t, v), t, v)
  }

  /** The loader's state after reading `lines`: a comment is skipped, any other line is
      a `Step`, and a line too long for the buffer ends the reading. */
  function Load(c: Cursor, lines: seq<string>, parseFloat: string -> Option<real>): (r: Cursor)
    ensures WellTyped(c.values) ==> WellTyped(r.values)
    decreases |lines|
  {
    if lines == [] || |lines[0]| >= LineCapacity then c
    else if IsComment(lines[0]) then Load(c, lines[1..], parseFloat)
    else Load(Step(c, lines[0], parseFloat), lines[1..], parseFloat)
  }

  function NonComments(lines: seq<string>): (r: seq<string>)
    ensures |r| <= |lines|
  {
    if lines == [] then []
    else (if IsComment(lines[0]) then [] else [lines[0]]) + NonComments(lines[1..])
  }

  /** Comments change nothing: a file reads as the same file with its comment lines
      taken out, provided no line is too long for the buffer. */
  lemma {:induction false} CommentsIgnored(c: Cursor, lines: seq<string>,
                                           parseFloat: string -> Option<real>)
    requires forall k :: 0 <= k < |lines| ==> |lines[k]| < LineCapacity
    ensures Load(c, lines, parseFloat) == Load(c, NonComments(lines), parseFloat)
    decreases |lines|
  {
    if lines != [] {
      var rest := NonComments(lines[1..]);
      if IsComment(lines[0]) {
        assert NonComments(lines) == [] + rest;
        assert [] + rest == rest;
        assert Load(c, lines, parseFloat) == Load(c, lines[1..], parseFloat);
        CommentsIgnored(c, lines[1..], parseFloat);
      } else {
        var n := NonComments(lines);
        assert n == [lines[0]] + rest;
        assert n[1..] == rest;
        CommentsIgnored(Step(c, lines[0], parseFloat), lines[1..], parseFloat);
      }
    }
  }

  /** Reading one more line is one more `Step`. */
  lemma {:induction false} LoadSnoc(c: Cursor, before: seq<string>, line: string,
                                    parseFloat: string -> Option<real>)
    requires forall k :: 0 <= k < |before| ==> |before[k]| < LineCapacity
    requires |line| < LineCapacity && !IsComment(line)
    ensures Load(c, before + [line], parseFloat) == Step(Load(c, before, parseFloat), line, parseFloat)
    decreases |before|
  {
    if before == [] {
      assert [line][1..] == [];
    } else {
      assert (before + [line])[1..] == before[1..] + [line];
      if IsComment(before[0]) {
        LoadSnoc(c, before[1..], line, parseFloat);
      } else {
        LoadSnoc(Step(c, before[0], parseFloat), before[1..], line, parseFloat);
      }
    }
  }

  /** Lines apply in file order: when the last line assigns a known name a number, the
      constant ends up with that number, whatever the lines before it said. */
  lemma LastAssignmentWins(c: Cursor, before: seq<string>, line: string,
                           parseFloat: string -> Option<real>)
    requires WellTyped(c.values)
    requires forall k :: 0 <= k < |before| ==> |before[k]| < LineCapacity
    requires |line| < LineCapacity && !IsComment(line)
    requires ScanLine(line, parseFloat).token.Some? && ScanLine(line, parseFloat).value.Some?
    requires Lookup(ScanLine(line, parseFloat).token.value).Some?
    ensures var sc := ScanLine(line, parseFloat);
            var n := Lookup(sc.token.value).value;
            Load(c, before + [line], parseFloat).values[n] == Convert(KindOf(n), sc.value.value)
  {
    LoadSnoc(c, before, line, parseFloat);
    StepAssigns(Load(c, before, parseFloat), line, parseFloat);
  }

  /** A line that scans a known name and a number stores that number. */
  lemma StepAssigns(c: Cursor, line: string, parseFloat: string -> Option<real>)
    requires ScanLine(line, parseFloat).token.Some? && ScanLine(line, parseFloat).value.Some?
    requires Lookup(ScanLine(line, parseFloat).token.value).Some?
    ensures var sc := ScanLine(line, parseFloat);
            var n := Lookup(sc.token.value).value;
            Step(c, line, parseFloat).values[n] == Convert(KindOf(n), sc.value.value)
  {
    var sc := ScanLine(line, parseFloat);
    assert Step(c, line, parseFloat).values == ReadValue(c.values, sc.token.value, sc.value.value);
  }

  /** A line whose number does not scan still assigns its name: it takes the number of
      the line before it. */
  lemma MalformedNumberTakesPrevious(c: Cursor, first: string, second: string,
                                     parseFloat: string -> Option<real>)
    requires WellTyped(c.values)
    requires |first| < LineCapacity && !IsComment(first)
    requires |second| < LineCapacity && !IsComment(second)
    requires ScanLine(first, parseFloat).value.Some?
    requires ScanLine(second, parseFloat).token.Some? && ScanLine(second, parseFloat).value.None?
    requires Lookup(ScanLine(second, parseFloat).token.value).Some?
    ensures var n := Lookup(ScanLine(second, parseFloat).token.value).value;
            Load(c, [first, second], parseFloat).values[n]
              == Convert(KindOf(n), ScanLine(first, parseFloat).value.value)
  {
    var after := Step(c, first, parseFloat);
    calc {
      Load(c, [first, second], parseFloat);
      { assert [first, second][1..] == [second]; }
      Load(after, [second], parseFloat);
      { assert [second][1..] == []; }
      Load(Step(after, second, parseFloat), [], parseFloat);
    }
    StepKeepsNumber(after, second, parseFloat);
  }

  /** A line that scans a known name but no number stores the number already held. */
  lemma StepKeepsNumber(c: Cursor, line: string, parseFloat: string -> Option<real>)
    requires ScanLine(line, parseFloat).token.Some? && ScanLine(line, parseFloat).value.None?
    requires Lookup(ScanLine(line, parseFloat).token.value).Some?
    ensures var n := Lookup(ScanLine(line, parseFloat).token.value).value;
            Step(c, line, parseFloat).values[n] == Convert(KindOf(n), c.value)
  {
    var sc := ScanLine(line, parseFloat);
    assert Step(c, line, parseFloat).values == ReadValue(c.values, sc.token.value, c.value);
  }

  /** The global constants, as one object whose variables the loader overwrites. */
  class Constants {
    var values: map<Name, Value>

    ghost predicate Valid()
      reads this
    {
      WellTyped(values)
    }

    /** The constants before any file is read. */
    constructor ()
      ensures Valid() && values == Defaults()
    {
      values := Defaults();
    }

    /** `TokenReadValue`. */
    method TokenReadValue(token: string, value: real)
      requires Valid()
      modifies this
      ensures Valid() && values == ReadValue(old(values), token, value)
    {
      var found := Lookup(token);
      if found.None? {
        return;
      }
      var n := found.value;
      match KindOf(n)
      case Digit => values := values[n := DigitValue(Truncate(value))];
      case Float => values := values[n := FloatValue(value)];
    }

    /** `TokenOutValue`: the constant's value, an integer one widened. The name must be
        in the table: an unknown one is dereferenced through the table's end. */
    function TokenOutValue(token: string): (v: real)
      requires Valid() && Lookup(token).Some?
      reads this
      ensures var n := Lookup(token).value;
              (KindOf(n) == Digit ==> v == values[n].i as real)
              && (KindOf(n) == Float ==> v == values[n].r)
    {
      OutValue(values[Lookup(token).value])
    }

    /** `LoadMapData`. Without a file (`file` is `None`), no constant changes, one
        (name, value) pair per table entry is written out in table order, and the result
        is false. With a file, its lines are applied in order; that path returns no
        value, which `None` records. */
    method LoadMapData(file: Option<seq<string>>, parseFloat: string -> Option<real>)
      returns (result: Option<bool>, written: seq<(string, real)>)
      requires Valid()
      modifies this
      ensures Valid()
      ensures file.None? ==>
                result == Some(false) && values == old(values)
                && |written| == |TableOrder()|
                && forall k :: 0 <= k < |written| ==>
                     written[k] == (Text(TableOrder()[k]), OutValue(values[TableOrder()[k]]))
      ensures file.Some? ==>
                result == None && written == []
                && values == Load(Cursor(old(values), "", 0.0), file.value, parseFloat).values
    {
      written := [];
      if file.None? {
        var names := TableOrder();
        for k := 0 to |names|
          invariant |written| == k
          invariant forall j :: 0 <= j < k ==> written[j] == (Text(names[j]), OutValue(values[names[j]]))
        {
          written := written + [(Text(names[k]), OutValue(values[names[k]]))];
        }
        return Some(false), written;
      }
      var lines := file.value;
      var token: string := "";
      var value: real := 0.0;
      var k := 0;
      while k < |lines| && |lines[k]| < LineCapacity
        invariant 0 <= k <= |lines| && Valid()
        invariant Load(Cursor(old(values), "", 0.0), lines, parseFloat)
                  == Load(Cursor(values, token, value), lines[k..], parseFloat)
      {
        assert lines[k..][1..] == lines[k + 1..];
        if !IsComment(lines[k]) {
          var sc := ScanLine(lines[k], parseFloat);
          if sc.token.Some? {
            token := sc.token.value;
          }
          if sc.value.Some? {
            value := sc.value.value;
          }
          TokenReadValue(token, value);
        }
        k := k + 1;
      }
      result := None;
    }
  }
}
