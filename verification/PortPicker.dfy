/** Choosing a free port: what the inbounds of a configuration occupy, and the random and exhaustive
    search for a port outside it. */
module PortPicker {
  import opened Prelude
  import opened Json
  import Text

  // ---------- what a port value means ----------

  /** One comma-separated piece of a port text: nothing usable, one port, or a range in either order. */
  datatype Piece = Nothing | One(port: int) | Span(first: int, last: int)

  function ParsePiece(text: string): Piece {
    var part := Text.Strip(text);
    if Text.AllDigits(part) then One(Text.Number(part))
    else
      var dash := Text.Find(part, '-');
      if dash == |part| then Nothing
      else
        var first, last := Text.Strip(part[..dash]), Text.Strip(part[dash + 1..]);
        if Text.AllDigits(first) && Text.AllDigits(last) then Span(Text.Number(first), Text.Number(last)) else Nothing
  }

  predicate PieceCovers(piece: Piece, port: int) {
    match piece
    case Nothing => false
    case One(p) => p == port
    case Span(a, b) => (a <= port <= b) || (b <= port <= a)
  }

  /** The ports a JSON port value stands for. A boolean is a number in Python. */
  predicate Covers(value: Json, port: int)
    decreases value
  {
    match value
    case Num(n) => n == port
    case Bool(b) => (if b then 1 else 0) == port
    case Str(s) => exists piece <- Text.Split(s, ',') :: PieceCovers(ParsePiece(piece), port)
    case Arr(items) => exists i :: 0 <= i < |items| && Covers(items[i], port)
    case _ => false
  }

  /** The port values of a configuration. */
  function PortValue(inbound: Json): Json {
    if inbound.Obj? then GetDefault(inbound.fields, "port", Null) else Null
  }

  predicate Taken(inbounds: seq<Json>, apiPort: Option<int>, port: int) {
    || apiPort == Some(port)
    || exists i :: 0 <= i < |inbounds| && Covers(PortValue(inbounds[i]), port)
  }

  // ---------- collecting ----------

  datatype Picked = Port(port: int) | NoFreePort | EmptyRange

  /** The set and the list of ranges that the collecting functions fill. */
  class UsedPorts {
    var used: set<int>
    var ranges: seq<(int, int)>

    constructor ()
      ensures used == {} && ranges == []
    {
      used, ranges := {}, [];
    }

    /** `_is_port_used` */
    predicate IsPortUsed(port: int)
      reads this
    {
      port in used || exists r <- ranges :: r.0 <= port <= r.1
    }

    method IsUsed(port: int) returns (b: bool)
      ensures b == IsPortUsed(port)
    {
      if port in used {
        return true;
      }
      for i := 0 to |ranges|
        invariant forall r <- ranges[..i] :: !(r.0 <= port <= r.1)
      {
        if ranges[i].0 <= port <= ranges[i].1 {
          assert ranges[i] in ranges;
          return true;
        }
        assert ranges[..i + 1] == ranges[..i] + [ranges[i]];
      }
      assert ranges[..|ranges|] == ranges;
      return false;
    }

    /** `_collect_ports`: exactly the ports the value stands for become used as well. */
    method CollectPorts(value: Json)
      modifies this
      ensures forall p: int :: IsPortUsed(p) <==> old(IsPortUsed(p)) || Covers(value, p)
      decreases value
    {
      match value {
        case Num(n) => used := used + {n};
        case Bool(b) => used := used + {if b then 1 else 0};
        case Str(s) => CollectText(s);
        case Arr(items) =>
          for i := 0 to |items|
            invariant forall p: int :: IsPortUsed(p) <==>
                        old(IsPortUsed(p)) || exists j :: 0 <= j < i && Covers(items[j], p)
          {
            CollectPorts(items[i]);
          }
        case _ =>
      }
    }

    method CollectText(s: string)
      modifies this
      ensures forall p: int :: IsPortUsed(p) <==> old(IsPortUsed(p)) || Covers(Str(s), p)
    {
      var pieces := Text.Split(s, ',');
      for i := 0 to |pieces|
        invariant forall p: int :: IsPortUsed(p) <==>
                    old(IsPortUsed(p)) || exists piece <- pieces[..i] :: PieceCovers(ParsePiece(piece), p)
      {
        CollectPiece(pieces[i]);
        assert pieces[..i + 1] == pieces[..i] + [pieces[i]];
      }
      assert pieces[..|pieces|] == pieces;
    }

    method CollectPiece(text: string)
      modifies this
      ensures forall p: int :: IsPortUsed(p) <==> old(IsPortUsed(p)) || PieceCovers(ParsePiece(text), p)
    {
      var part := Text.Strip(text);
      if part == "" {
        return;
      }
      if Text.AllDigits(part) {
        used := used + {Text.Number(part)};
        return;
      }
      if '-' in part {
        var dash := Text.Find(part, '-');
        var startText, endText := Text.Strip(part[..dash]), Text.Strip(part[dash + 1..]);
        if Text.AllDigits(startText) && Text.AllDigits(endText) {
          var start, end := Text.Number(startText), Text.Number(endText);
          if start > end {
            start, end := end, start;
          }
          var before := ranges;
          ranges := ranges + [(start, end)];
          assert forall r :: r in ranges <==> r in before || r == (start, end);
        }
      }
    }

    /** `_extract_used_ports` */
    method Extract(inbounds: seq<Json>, apiPort: Option<int>)
      requires used == {} && ranges == []
      modifies this
      ensures forall p: int :: IsPortUsed(p) <==> Taken(inbounds, apiPort, p)
    {
      for i := 0 to |inbounds|
        invariant forall p: int :: IsPortUsed(p) <==> exists j :: 0 <= j < i && Covers(PortValue(inbounds[j]), p)
      {
        if inbounds[i].Obj? {
          CollectPorts(GetDefault(inbounds[i].fields, "port", Null));
        }
      }
      label Collected:
      if apiPort.Some? {
        used := used + {apiPort.value};
      }
      forall p: int ensures IsPortUsed(p) <==> Taken(inbounds, apiPort, p) {
        assert old@Collected(IsPortUsed(p)) <==> exists j :: 0 <= j < |inbounds| && Covers(PortValue(inbounds[j]), p);
        assert p in used <==> old@Collected(p in used) || apiPort == Some(p);
      }
    }
  }

  /** `_pick_available_port`: for any random draws within the range, the port found lies in the range
      and outside everything taken, and none is found only when the whole range is taken. */
  method PickAvailablePort(inbounds: seq<Json>, apiPort: Option<int>, minPort: int, maxPort: int, draw: nat -> int)
    returns (r: Picked)
    requires minPort <= maxPort ==> forall i: nat :: minPort <= draw(i) <= maxPort
    ensures r.EmptyRange? <==> minPort > maxPort
    ensures r.Port? ==> minPort <= r.port <= maxPort && !Taken(inbounds, apiPort, r.port)
    ensures r.NoFreePort? <==> minPort <= maxPort && forall p :: minPort <= p <= maxPort ==> Taken(inbounds, apiPort, p)
  {
    if minPort > maxPort {
      return EmptyRange;
    }
    var ports := new UsedPorts();
    ports.Extract(inbounds, apiPort);
    for i := 0 to 200
      invariant forall p: int :: ports.IsPortUsed(p) <==> Taken(inbounds, apiPort, p)
    {
      var candidate := draw(i);
      var taken := ports.IsUsed(candidate);
      if !taken {
        return Port(candidate);
      }
    }
    for candidate := minPort to maxPort + 1
      invariant forall p: int :: ports.IsPortUsed(p) <==> Taken(inbounds, apiPort, p)
      invariant forall p :: minPort <= p < candidate ==> Taken(inbounds, apiPort, p)
    {
      var taken := ports.IsUsed(candidate);
      if !taken {
        return Port(candidate);
      }
    }
    return NoFreePort;
  }

  /** What a value covers that is not text: a number itself, a list what its elements cover, and nothing else but
      a boolean, which is 0 or 1; and what is taken: the API port, and what the `port` of an inbound covers. */
  lemma CoversIs(value: Json, port: int, inbounds: seq<Json>, apiPort: Option<int>)
    ensures value.Num? ==> (Covers(value, port) <==> port == value.n)
    ensures value.Bool? ==> (Covers(value, port) <==> port == if value.b then 1 else 0)
    ensures value.Arr? ==> (Covers(value, port) <==> exists i :: 0 <= i < |value.items| && Covers(value.items[i], port))
    ensures value.Null? || value.Obj? ==> !Covers(value, port)
    ensures Taken(inbounds, apiPort, port) <==>
      || (apiPort.Some? && apiPort.value == port)
      || exists i :: 0 <= i < |inbounds| && inbounds[i].Obj? && "port" in inbounds[i].fields
                     && Covers(inbounds[i].fields["port"], port)
  {}

  /** The text of a list covers what its parts cover, and the text of a number that number, with or without a
      blank before it. */
  lemma ListText(parts: seq<string>, port: int)
    requires parts != [] && forall part <- parts :: ',' !in part
    ensures Covers(Str(Text.Join(parts, ',')), port) <==> exists part <- parts :: Covers(Str(part), port)
  {
    Text.SplitOfJoin(parts, ',');
    forall part | part in parts ensures Covers(Str(part), port) <==> PieceCovers(ParsePiece(part), port) {
      assert Text.Split(part, ',') == [part];
      assert part in [part];
    }
  }

  lemma NumberText(n: nat, port: int)
    ensures Covers(Str(Text.Decimal(n)), port) <==> port == n
    ensures Covers(Str(" " + Text.Decimal(n)), port) <==> port == n
  {
    var x := Text.Decimal(n);
    var blank := " " + x;
    assert blank[0] == ' ' && blank[1..] == x && x[0] in x;
    assert Text.StripLeft(x) == x && Text.StripLeft(blank) == Text.StripLeft(x);
    assert ',' !in x && ',' !in blank;
    assert Text.Split(x, ',') == [x] && Text.Split(blank, ',') == [blank];
    DecimalIsSolid(n);
    Text.NumberOfDecimal(n);
    assert x in [x] && blank in [blank];
  }

  /** Text without a digit covers nothing. */
  lemma NoDigitsCoverNothing(s: string, port: int)
    requires ',' !in s && forall c <- s :: !('0' <= c <= '9')
    ensures !Covers(Str(s), port)
  {
    assert Text.Split(s, ',') == [s];
    var part := Text.Strip(s);
    PartsOfStrip(s);
    var dash := Text.Find(part, '-');
    if dash < |part| {
      PartsOfStrip(part[..dash]);
      PartsOfStrip(part[dash + 1..]);
      assert forall c <- part[..dash] :: c in part;
      assert forall c <- part[dash + 1..] :: c in part;
      NoDigits(Text.Strip(part[..dash]));
    }
    NoDigits(part);
  }

  lemma NoDigits(s: string)
    requires forall c <- s :: !('0' <= c <= '9')
    ensures !Text.AllDigits(s)
  {
    if s != [] {
      assert s[0] in s;
    }
  }

  lemma PartsOfStrip(s: string)
    ensures forall c <- Text.Strip(s) :: c in s
  {
    LeftPart(s);
    Text.StripRightFacts(Text.StripLeft(s));
  }

  lemma {:induction false} LeftPart(s: string)
    ensures forall c <- Text.StripLeft(s) :: c in s
  {
    if s != [] && Text.IsSpace(s[0]) {
      LeftPart(s[1..]);
    }
  }

  /** The text of a range covers the ports between its ends, whichever end comes first. */
  lemma RangeOrderDoesNotMatter(a: nat, b: nat, port: int)
    ensures Covers(Str(Text.Decimal(a) + "-" + Text.Decimal(b)), port) <==> Covers(Str(Text.Decimal(b) + "-" + Text.Decimal(a)), port)
    ensures Covers(Str(Text.Decimal(a) + "-" + Text.Decimal(b)), port) <==> (a <= port <= b || b <= port <= a)
  {
    RangeText(a, b, port);
    RangeText(b, a, port);
  }

  lemma RangeText(a: nat, b: nat, port: int)
    ensures Covers(Str(Text.Decimal(a) + "-" + Text.Decimal(b)), port) <==> (a <= port <= b || b <= port <= a)
  {
    var s := Text.Decimal(a) + "-" + Text.Decimal(b);
    assert ',' !in s;
    assert Text.Split(s, ',') == [s];
    RangeParses(a, b);
    assert s in [s];
  }

  lemma DecimalIsSolid(n: nat)
    ensures Text.Strip(Text.Decimal(n)) == Text.Decimal(n)
  {
    var x := Text.Decimal(n);
    assert x[0] in x && x[|x| - 1] in x;
    Text.StripBetweenDigits(x);
  }

  lemma RangeIsSolid(a: nat, b: nat)
    ensures var s := Text.Decimal(a) + "-" + Text.Decimal(b); Text.Strip(s) == s && !Text.AllDigits(s)
  {
    var x, y := Text.Decimal(a), Text.Decimal(b);
    var s := x + "-" + y;
    assert s[0] == x[0] && s[|s| - 1] == y[|y| - 1];
    assert x[0] in x && y[|y| - 1] in y;
    Text.StripBetweenDigits(s);
    assert s[|x|] == '-';
    Text.NotAllDigits(s, |x|);
  }

  lemma RangeParses(a: nat, b: nat)
    ensures ParsePiece(Text.Decimal(a) + "-" + Text.Decimal(b)) == Span(a, b)
  {
    var x, y := Text.Decimal(a), Text.Decimal(b);
    var s := x + "-" + y;
    RangeIsSolid(a, b);
    Text.FindInConcat(x, '-', y);
    assert s == x + ['-'] + y;
    assert s[..|x|] == x && s[|x| + 1..] == y;
    DecimalIsSolid(a);
    DecimalIsSolid(b);
    Text.NumberOfDecimal(a);
    Text.NumberOfDecimal(b);
  }
}
