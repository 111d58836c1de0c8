/** Matching the media type and subtype of a part, octet by octet (stripmime.c). */
module MediaFilter {
  import opened Bytes
  import opened ParserEngine
  import opened Strcmpi
  import opened MediaBank

  /** A type to filter: its name and the parser that looks for it. */
  datatype TypeNode = TypeNode(name: seq<byte>, parser: Parser<Kind>, subtypes: seq<SubtypeNode>)

  datatype SubtypeNode = Wildcard | Subtype(name: seq<byte>, parser: Parser<Kind>)

  ghost predicate Looks(parser: Parser<Kind>, name: seq<byte>)
    reads parser
  {
    parser.Valid() && parser.classes == NO_CLASSES && parser.def == Table(name) && Ascii(name)
  }

  /** A parser that looks for a name goes through Go, and says EQ on a hit. */
  lemma LooksStep(name: seq<byte>, q: nat, c: byte)
    requires Ascii(name) && q < |name| + 2 && Complete(Table(name))
    ensures Step(NO_CLASSES, Table(name), q, c).state == Go(name, q, c)
    ensures Step(NO_CLASSES, Table(name), q, c).events[0].kind == Eq <==> Hits(name, q, c)
  {
    StepFrom(name, q, c);
  }

  method Look(parser: Parser<Kind>, ghost name: seq<byte>, c: byte) returns (kind: Kind)
    requires Looks(parser, name)
    modifies parser
    ensures Looks(parser, name)
    ensures parser.state == Go(name, old(parser.state), c)
    ensures kind == Eq <==> Hits(name, old(parser.state), c)
  {
    LooksStep(name, parser.state, c);
    parser.Feed(c);
    assert parser.Events()[0] == parser.e1;
    kind := parser.e1.kind;
  }

  ghost function Parsers(types: seq<TypeNode>): set<Parser<Kind>> {
    set i | 0 <= i < |types| :: types[i].parser
  }

  ghost predicate ValidTypes(types: seq<TypeNode>)
    reads Parsers(types)
  {
    && (forall i :: 0 <= i < |types| ==> Looks(types[i].parser, types[i].name))
    && (forall i, j :: 0 <= i < j < |types| ==> types[i].parser != types[j].parser)
  }

  /** The list as names and states. */
  ghost predicate Is(types: seq<TypeNode>, names: Names, states: seq<nat>)
    reads Parsers(types)
  {
    && |types| == |names| == |states|
    && forall i :: 0 <= i < |types| ==> types[i].name == names[i] && types[i].parser.state == states[i]
  }

  /** Feeding one node's parser touches no other node. */
  method LookAt(types: seq<TypeNode>, ghost names: Names, ghost states: seq<nat>, i: nat, c: byte) returns (kind: Kind)
    requires ValidTypes(types) && Is(types, names, states) && i < |types|
    modifies types[i].parser
    ensures ValidTypes(types)
    ensures Is(types, names, states[i := Go(names[i], states[i], c)])
    ensures kind == Eq <==> Hits(names[i], states[i], c)
  {
    kind := Look(types[i].parser, types[i].name, c);
  }

  /** The list with all parsers before i fed. */
  ghost function Partly(names: Names, states: seq<nat>, i: nat, c: byte): (r: seq<nat>)
    requires |names| == |states|
    ensures |r| == |names|
  {
    seq(|names|, j requires 0 <= j < |names| => if j < i then Go(names[j], states[j], c) else states[j])
  }

  lemma PartlyNext(names: Names, states: seq<nat>, i: nat, c: byte)
    requires |names| == |states| && i < |names|
    ensures Partly(names, states, i, c)[i := Go(names[i], states[i], c)] == Partly(names, states, i + 1, c)
    ensures FirstHit(names, states, c) == i ==> Partly(names, states, i + 1, c) == Feed(names, states, c)
    ensures FirstHit(names, states, c) == |names| ==> Partly(names, states, |names|, c) == Feed(names, states, c)
  {
  }

  /** The walk along the list of types, up to the first parser that says EQ. */
  method Walk(types: seq<TypeNode>, ghost names: Names, ghost states: seq<nat>, c: byte) returns (i: nat)
    requires ValidTypes(types) && Is(types, names, states)
    modifies Parsers(types)
    ensures ValidTypes(types) && Is(types, names, Feed(names, states, c))
    ensures i == FirstHit(names, states, c)
  {
    i := 0;
    if types == [] {
      return;
    }
    PartlyNext(names, states, 0, c);
    assert Partly(names, states, 0, c) == states;
    while i < |types|
      invariant 0 <= i <= |types|
      invariant ValidTypes(types) && Is(types, names, Partly(names, states, i, c))
      invariant FirstHit(names, states, c) == FirstHit(names, states, c, i)
    {
      var kind := LookAt(types, names, Partly(names, states, i, c), i, c);
      PartlyNext(names, states, i, c);
      if kind == Eq {
        return;
      }
      i := i + 1;
    }
  }

  ghost function SubParsers(subtypes: seq<SubtypeNode>): set<Parser<Kind>> {
    set i | 0 <= i < |subtypes| && subtypes[i].Subtype? :: subtypes[i].parser
  }

  /** A list of subtypes without wildcards. */
  ghost predicate ValidSubtypes(subtypes: seq<SubtypeNode>)
    reads SubParsers(subtypes)
  {
    && (forall i :: 0 <= i < |subtypes| ==> subtypes[i].Subtype?)
    && (forall i :: 0 <= i < |subtypes| ==> Looks(subtypes[i].parser, subtypes[i].name))
    && (forall i, j :: 0 <= i < j < |subtypes| ==> subtypes[i].parser != subtypes[j].parser)
  }

  ghost predicate AreSubtypes(subtypes: seq<SubtypeNode>, names: Names, states: seq<nat>)
    requires forall i :: 0 <= i < |subtypes| ==> subtypes[i].Subtype?
    reads SubParsers(subtypes)
  {
    && |subtypes| == |names| == |states|
    && forall i :: 0 <= i < |subtypes| ==> subtypes[i].name == names[i] && subtypes[i].parser.state == states[i]
  }

  method LookAtSubtype(subtypes: seq<SubtypeNode>, ghost names: Names, ghost states: seq<nat>, i: nat, c: byte)
    returns (kind: Kind)
    requires ValidSubtypes(subtypes) && AreSubtypes(subtypes, names, states) && i < |subtypes|
    modifies subtypes[i].parser
    ensures ValidSubtypes(subtypes)
    ensures AreSubtypes(subtypes, names, states[i := Go(names[i], states[i], c)])
    ensures kind == Eq <==> Hits(names[i], states[i], c)
  {
    kind := Look(subtypes[i].parser, subtypes[i].name, c);
  }

  lemma FullIsFeedAll(names: Names, states: seq<nat>, c: byte)
    requires |names| == |states|
    ensures Partly(names, states, |names|, c) == FeedAll(names, states, c)
    ensures Partly(names, states, 0, c) == states
  {
  }

  /** All parsers are fed; the last EQ wins, and without one the first parser's word stands. */
  method Sweep(subtypes: seq<SubtypeNode>, ghost names: Names, ghost states: seq<nat>, c: byte) returns (current: Kind)
    requires subtypes != [] && ValidSubtypes(subtypes) && AreSubtypes(subtypes, names, states)
    modifies SubParsers(subtypes)
    ensures ValidSubtypes(subtypes) && AreSubtypes(subtypes, names, FeedAll(names, states, c))
    ensures current == Eq <==> AnyHit(names, states, c)
  {
    FullIsFeedAll(names, states, c);
    PartlyNext(names, states, 0, c);
    current := LookAtSubtype(subtypes, names, states, 0, c);
    var i := 1;
    while i < |subtypes|
      invariant 1 <= i <= |subtypes|
      invariant ValidSubtypes(subtypes) && AreSubtypes(subtypes, names, Partly(names, states, i, c))
      invariant current == Eq <==> exists j :: 0 <= j < i && Hits(names[j], states[j], c)
    {
      var kind := LookAtSubtype(subtypes, names, Partly(names, states, i, c), i, c);
      PartlyNext(names, states, i, c);
      if kind == Eq {
        current := kind;
      }
      i := i + 1;
    }
  }

  class Context {
    var media_types: seq<TypeNode>
    var media_subtypes: seq<SubtypeNode>
    var media_type_filter_detected: bool
    var media_filter_apply: bool
    var replace_content_type: bool

    constructor (types: seq<TypeNode>)
      ensures media_types == types && media_subtypes == []
      ensures !media_type_filter_detected && !media_filter_apply && !replace_content_type
    {
      media_types := types;
      media_subtypes := [];
      media_type_filter_detected := false;
      media_filter_apply := false;
      replace_content_type := false;
    }

    method ContentTypeMatch(ghost names: Names, ghost states: seq<nat>, c: byte)
      requires ValidTypes(media_types) && Is(media_types, names, states)
      modifies `media_type_filter_detected, `media_subtypes, Parsers(media_types)
      ensures ValidTypes(media_types) && Is(media_types, names, Feed(names, states, c))
      ensures var h := FirstHit(names, states, c);
              && (media_types != [] ==> (media_type_filter_detected <==> h < |names|))
              && (h < |names| ==> media_subtypes == media_types[h].subtypes)
              && (h == |names| ==> media_subtypes == old(media_subtypes))
    {
      var i := Walk(media_types, names, states, c);
      if |media_types| == 0 {
        return;
      }
      if i < |media_types| {
        media_type_filter_detected := true;
        media_subtypes := media_types[i].subtypes;
      } else {
        media_type_filter_detected := false;
      }
    }

    method ContentSubtypeMatch(ghost names: Names, ghost states: seq<nat>, c: byte)
      requires media_subtypes != []
      requires media_subtypes[0].Subtype? ==>
                 ValidSubtypes(media_subtypes) && AreSubtypes(media_subtypes, names, states)
      modifies `media_filter_apply, `replace_content_type, SubParsers(media_subtypes)
      ensures media_subtypes[0].Wildcard? ==>
                media_filter_apply && unchanged(SubParsers(media_subtypes))
      ensures media_subtypes[0].Subtype? ==>
                && ValidSubtypes(media_subtypes)
                && AreSubtypes(media_subtypes, names, FeedAll(names, states, c))
                && (media_filter_apply <==> AnyHit(names, states, c))
      ensures replace_content_type == (old(replace_content_type) || media_filter_apply)
    {
      var current := Eq;
      if media_subtypes[0].Subtype? {
        current := Sweep(media_subtypes, names, states, c);
      }
      if current == Eq {
        media_filter_apply := true;
        replace_content_type := true;
      } else {
        media_filter_apply := false;
      }
    }

    /** All octets of a type, one after the other, into freshly reset parsers. */
    method TypeOctets(ghost names: Names, t: seq<byte>)
      requires t != [] && media_types != []
      requires ValidTypes(media_types) && Is(media_types, names, States(names, []))
      modifies `media_type_filter_detected, `media_subtypes, Parsers(media_types)
      ensures ValidTypes(media_types) && Is(media_types, names, States(names, t))
      ensures media_type_filter_detected <==> Detected(names, t)
      ensures Detected(names, t) ==> media_subtypes == media_types[Settled(names, t)].subtypes
    {
      var i := 0;
      while i < |t|
        invariant 0 <= i <= |t|
        invariant ValidTypes(media_types) && Is(media_types, names, States(names, t[..i]))
        invariant i > 0 ==> (media_type_filter_detected <==> Detected(names, t[..i]))
        invariant i > 0 && Detected(names, t[..i]) ==> media_subtypes == media_types[Settled(names, t[..i])].subtypes
      {
        assert Front(t[..i + 1]) == t[..i];
        ContentTypeMatch(names, States(names, t[..i]), t[i]);
        i := i + 1;
      }
      assert t[..i] == t;
    }

    /** The current subtypes are those named, and their parsers stand in these states. */
    ghost predicate SubtypesAre(names: Names, states: seq<nat>)
      reads this, SubParsers(media_subtypes)
    {
      && media_subtypes != []
      && (media_subtypes[0].Subtype? ==> ValidSubtypes(media_subtypes) && AreSubtypes(media_subtypes, names, states))
    }

    /** The flag says whether u is a subtype to filter. */
    ghost predicate Tells(names: Names, u: seq<byte>)
      requires media_subtypes != []
      reads this
    {
      media_filter_apply <==> media_subtypes[0].Wildcard? || Listed(names, u)
    }

    /** One octet of a subtype, after those of u. */
    method SubtypeOctet(ghost names: Names, ghost u: seq<byte>, c: byte)
      requires SubtypesAre(names, StatesOfAll(names, u))
      modifies `media_filter_apply, `replace_content_type, SubParsers(media_subtypes)
      ensures SubtypesAre(names, StatesOfAll(names, u + [c])) && Tells(names, u + [c])
      ensures replace_content_type == (old(replace_content_type) || media_filter_apply)
    {
      assert Front(u + [c]) == u;
      SubtypesDetectMembers(names, u + [c]);
      ContentSubtypeMatch(names, StatesOfAll(names, u), c);
    }

    /** All octets of a subtype, fed to freshly reset parsers unless a wildcard heads the list. */
    method SubtypeOctets(ghost names: Names, u: seq<byte>)
      requires u != [] && SubtypesAre(names, StatesOfAll(names, []))
      modifies `media_filter_apply, `replace_content_type, SubParsers(media_subtypes)
      ensures media_filter_apply <==> media_subtypes[0].Wildcard? || Listed(names, u)
      ensures replace_content_type <==>
                old(replace_content_type) || media_subtypes[0].Wildcard? || exists k :: 0 < k <= |u| && Listed(names, u[..k])
    {
      var i := 0;
      while i < |u|
        invariant 0 <= i <= |u|
        invariant SubtypesAre(names, StatesOfAll(names, u[..i]))
        invariant i > 0 ==> Tells(names, u[..i])
        invariant replace_content_type <==>
                    || old(replace_content_type) || (i > 0 && media_subtypes[0].Wildcard?)
                    || exists k :: 0 < k <= i && Listed(names, u[..k])
      {
        PrefixPush(u, i);
        SubtypeOctet(names, u[..i], u[i]);
        i := i + 1;
      }
      assert u[..i] == u;
    }
  }
}
