/** Output names: the order used for placement, and the matching used to find configuration.
    Strings are byte sequences, as `str` comparison and slicing work on bytes. */
module OutputNames {
  import opened Wrappers

  type byte = x: int | 0 <= x < 256
  type Str = seq<byte>

  const SPACE: byte := 0x20

  /** "Unknown" */
  const UNKNOWN: Str := [0x55, 0x6E, 0x6B, 0x6E, 0x6F, 0x77, 0x6E]

  datatype OutputName = OutputName(connector: Str, make: Option<Str>, model: Option<Str>, serial: Option<Str>)
  {
    predicate MissingMakeModelSerial() {
      make.None? && model.None? && serial.None?
    }

    function MakeModelSerial(): Str {
      OrUnknown(make) + [SPACE] + OrUnknown(model) + [SPACE] + OrUnknown(serial)
    }
  }

  function OrUnknown(s: Option<Str>): Str {
    if s.Some? then s.value else UNKNOWN
  }

  datatype Ordering = Less | Equal | Greater {
    function Then(next: Ordering): Ordering {
      if Equal? then next else this
    }

    function Reverse(): Ordering {
      match this
      case Less => Greater
      case Equal => Equal
      case Greater => Less
    }
  }

  function CompareStr(a: Str, b: Str): Ordering {
    if a == [] then (if b == [] then Equal else Less)
    else if b == [] then Greater
    else if a[0] < b[0] then Less
    else if a[0] > b[0] then Greater
    else CompareStr(a[1..], b[1..])
  }

  /** A missing value comes before every present one. */
  function CompareOption(a: Option<Str>, b: Option<Str>): Ordering {
    match (a, b)
    case (None, None) => Equal
    case (None, Some(_)) => Less
    case (Some(_), None) => Greater
    case (Some(x), Some(y)) => CompareStr(x, y)
  }

  function Compare(a: OutputName, b: OutputName): Ordering {
    match (a.MissingMakeModelSerial(), b.MissingMakeModelSerial())
    case (true, true) => CompareStr(a.connector, b.connector)
    case (true, false) => Greater
    case (false, true) => Less
    case (false, false) =>
      CompareOption(a.make, b.make)
        .Then(CompareOption(a.model, b.model))
        .Then(CompareOption(a.serial, b.serial))
        .Then(CompareStr(a.connector, b.connector))
  }

  /** Three comparisons are those of a total order whose ties are `Equal`. */
  predicate Chains(ab: Ordering, bc: Ordering, ac: Ordering) {
    ab != Greater && bc != Greater ==> ac != Greater && (ac == Equal <==> ab == Equal && bc == Equal)
  }

  lemma {:induction false} StrOrder(a: Str, b: Str, c: Str)
    ensures CompareStr(a, b) == Equal <==> a == b
    ensures CompareStr(b, a) == CompareStr(a, b).Reverse()
    ensures Chains(CompareStr(a, b), CompareStr(b, c), CompareStr(a, c))
    decreases |a| + |b| + |c|
  {
    if a != [] && b != [] {
      StrOrder(a[1..], b[1..], if c == [] then [] else c[1..]);
      assert a == [a[0]] + a[1..] && b == [b[0]] + b[1..];
    } else if c != [] && a != [] {
      assert b == [];
    }
  }

  lemma OptionOrder(a: Option<Str>, b: Option<Str>, c: Option<Str>)
    ensures CompareOption(a, b) == Equal <==> a == b
    ensures CompareOption(b, a) == CompareOption(a, b).Reverse()
    ensures Chains(CompareOption(a, b), CompareOption(b, c), CompareOption(a, c))
  {
    StrOrder(OrUnknown(a), OrUnknown(b), OrUnknown(c));
  }

  /** `compare` is a strict total order: it ties only identical names, it is antisymmetric, and it
      is transitive. In particular outputs with distinct connectors are never tied. */
  lemma CompareIsTotalOrder(a: OutputName, b: OutputName, c: OutputName)
    ensures Compare(a, b) == Equal <==> a == b
    ensures Compare(b, a) == Compare(a, b).Reverse()
    ensures Chains(Compare(a, b), Compare(b, c), Compare(a, c))
  {
    OptionOrder(a.make, b.make, c.make);
    OptionOrder(a.model, b.model, c.model);
    OptionOrder(a.serial, b.serial, c.serial);
    StrOrder(a.connector, b.connector, c.connector);
  }

  function Lower(b: byte): byte {
    if 0x41 <= b <= 0x5A then b + 0x20 else b
  }

  /** `eq_ignore_ascii_case` */
  predicate EqualIgnoringCase(a: Str, b: Str) {
    |a| == |b| && forall i | 0 <= i < |a| :: Lower(a[i]) == Lower(b[i])
  }

  /** `target.get(..n)`: the first `n` bytes, if they exist and end at a character boundary. */
  function Get(target: Str, n: nat): Option<Str> {
    if n <= |target| && (n == 0 || n == |target| || !(0x80 <= target[n] < 0xC0)) then Some(target[..n]) else None
  }

  /** Strips `part`, in any case, from the front of `target`. */
  function StripPart(part: Str, target: Str): Option<Str> {
    match Get(target, |part|)
    case None => None
    case Some(front) => if EqualIgnoringCase(front, part) then Some(target[|part|..]) else None
  }

  function StripSpace(target: Str): Option<Str> {
    if target != [] && target[0] == SPACE then Some(target[1..]) else None
  }

  predicate Matches(name: OutputName, target: Str) {
    if EqualIgnoringCase(target, name.connector) then true
    else if name.MissingMakeModelSerial() then false
    else
      match StripPart(OrUnknown(name.make), target)
      case None => false
      case Some(rest) =>
        match StripSpace(rest)
        case None => false
        case Some(rest) =>
          match StripPart(OrUnknown(name.model), rest)
          case None => false
          case Some(rest) =>
            match StripSpace(rest)
            case None => false
            case Some(rest) => EqualIgnoringCase(rest, OrUnknown(name.serial))
  }

  /** Stripping a part and a space from `target` succeeds exactly when `target` begins with them,
      so what remains decides whether `target` is the part, a space, and the rest. */
  lemma StripIff(part: Str, rest: Str, target: Str)
    ensures EqualIgnoringCase(target, part + [SPACE] + rest) <==>
            match StripPart(part, target)
            case None => false
            case Some(tail) => StripSpace(tail).Some? && EqualIgnoringCase(StripSpace(tail).value, rest)
  {
  }

  /** The slicing in `matches` decides whether the target is the connector, or the formatted make,
      model and serial of an output that has any of them, ignoring ASCII case. */
  lemma MatchesIff(name: OutputName, target: Str)
    ensures Matches(name, target) <==>
              || EqualIgnoringCase(target, name.connector)
              || (!name.MissingMakeModelSerial() && EqualIgnoringCase(target, name.MakeModelSerial()))
  {
    var make, model, serial := OrUnknown(name.make), OrUnknown(name.model), OrUnknown(name.serial);
    var rest := model + [SPACE] + serial;
    assert name.MakeModelSerial() == make + [SPACE] + rest;
    StripIff(make, rest, target);
    if StripPart(make, target).Some? && StripSpace(target[|make|..]).Some? {
      StripIff(model, serial, StripSpace(target[|make|..]).value);
    }
  }

  datatype Point = Point(x: int, y: int)

  /** An `output` section of the configuration. */
  datatype OutputConfig = OutputConfig(name: Str, position: Option<Point>)

  /** The first section that matches `name`. */
  function Find(sections: seq<OutputConfig>, name: OutputName): (r: Option<OutputConfig>)
    ensures r.Some? <==> exists i | 0 <= i < |sections| :: Matches(name, sections[i].name)
    ensures r.Some? ==> exists i | 0 <= i < |sections| ::
              sections[i] == r.value && Matches(name, r.value.name)
              && forall k | 0 <= k < i :: !Matches(name, sections[k].name)
  {
    if sections == [] then None
    else if Matches(name, sections[0].name) then Some(sections[0])
    else
      var r := Find(sections[1..], name);
      assert forall i | 0 < i < |sections| :: sections[i] == sections[1..][i - 1];
      r
  }
}
