/**
 Apply groups: the options an object carries, the tree of appliers, and the recursive parser that
 builds the tree from a stream of JSON tokens.

 An object is one token here, complete with its decoded fields, because the parser hands every
 object to the object decoder in one call. Arrays are streams, as they are in the parser.
 */
module ApplyGroup {
  import opened Wrappers
  import opened Unstructured

  const OPTIONS_KEY := "__internal_use_espejote_lib_apply_options"
  const DELETION_KEY := "__internal_use_espejote_lib_deletion"
  const CONFIG_GVK := Gvk("internal.espejote.io", "v1", "ApplyGroupConfig")

  datatype Defaults = Defaults(fieldManager: string, force: bool, fieldManagerFallback: string)

  datatype PatchOptions = PatchOptions(fieldManager: string, force: bool)

  datatype DeleteOptions = DeleteOptions(
    gracePeriodSeconds: Option<int>,
    propagationPolicy: Option<string>,
    preconditionUID: Option<string>,
    preconditionResourceVersion: Option<string>)

  datatype ParseError =
    | RootConfig
    | MissingKind
    | Malformed
    | BadOption(field: string)
    | ConfigNotFirst
    | BadErrorPolicy
    | UnexpectedToken

  datatype Kind = NoopKind | ApplyKind | ApplyGroupConfigKind | DeleteKind | GroupKind | OtherKind(n: int)

  datatype Applier = Applier(
    kind: Kind,
    errorPolicy: string,
    applyOptions: Option<PatchOptions>,
    deleteOptions: Option<DeleteOptions>,
    resource: Option<Object>,
    subResource: string,
    group: seq<Applier>)

  const BLANK := Applier(NoopKind, "", None, None, None, "", [])

  predicate IsConfig(o: Object) { GvkOf(o) == CONFIG_GVK }

  // ---- options carried by objects ----

  function AsOption<T>(l: Lookup<T>): Option<T> { if l.Found? then Some(l.value) else None }

  /** patchOptionsFromObject: the options, the sub-resource, and the object without its options key. */
  function PatchOptionsFromObject(d: Defaults, o: Object): Result<(PatchOptions, string, Object), ParseError> {
    var manager := NestedString(o, OPTIONS_KEY, "fieldManager");
    var suffix := NestedString(o, OPTIONS_KEY, "fieldManagerSuffix");
    var force := NestedBool(o, OPTIONS_KEY, "force");
    var sub := NestedString(o, OPTIONS_KEY, "subResource");
    if manager.WrongType? then Err(BadOption("fieldManager"))
    else if suffix.WrongType? then Err(BadOption("fieldManagerSuffix"))
    else if force.WrongType? then Err(BadOption("force"))
    else if sub.WrongType? then Err(BadOption("subResource"))
    else
      var own := if manager.Found? then manager.value else d.fieldManager;
      var base := if own == "" then d.fieldManagerFallback else own;
      var full := base + if suffix.Found? then suffix.value else "";
      var forced := if force.Found? then force.value else d.force;
      Ok((PatchOptions(full, forced), if sub.Found? then sub.value else "", o - {OPTIONS_KEY}))
  }

  /** deleteOptionsFromRenderedObject: None means the object is not marked for deletion. */
  function DeleteOptionsFromObject(o: Object): Result<Option<DeleteOptions>, ParseError> {
    var marked := NestedBool(o, DELETION_KEY, "delete");
    if marked.WrongType? then Err(BadOption("delete"))
    else if marked != Found(true) then Ok(None)
    else
      var grace := NestedInt64(o, DELETION_KEY, "gracePeriodSeconds");
      var propagation := NestedString(o, DELETION_KEY, "propagationPolicy");
      var uid := NestedString(o, DELETION_KEY, "preconditionUID");
      var version := NestedString(o, DELETION_KEY, "preconditionResourceVersion");
      if grace.WrongType? then Err(BadOption("gracePeriodSeconds"))
      else if propagation.WrongType? then Err(BadOption("propagationPolicy"))
      else if uid.WrongType? then Err(BadOption("preconditionUID"))
      else if version.WrongType? then Err(BadOption("preconditionResourceVersion"))
      else Ok(Some(DeleteOptions(AsOption(grace), AsOption(propagation), AsOption(uid), AsOption(version))))
  }

  /** The object branch of the parser. */
  function ParseObject(d: Defaults, o: Object, atRoot: bool): Result<Applier, ParseError> {
    if !HasKind(o) then Err(MissingKind)
    else if IsConfig(o) then
      if atRoot then Err(RootConfig) else Ok(BLANK.(kind := ApplyGroupConfigKind, resource := Some(o)))
    else
      var deletion :- DeleteOptionsFromObject(o);
      if deletion.Some? then
        Ok(BLANK.(kind := DeleteKind, deleteOptions := deletion, resource := Some(Strip(o))))
      else
        var (options, sub, rest) :- PatchOptionsFromObject(d, o);
        Ok(BLANK.(kind := ApplyKind, applyOptions := Some(options), subResource := sub, resource := Some(rest)))
  }

  /** The policy a config element sets: none given, one of the two allowed ones, or an error. */
  function ConfigPolicy(o: Object): Result<Option<string>, ParseError> {
    match NestedString(o, "spec", "errorPolicy")
    case Absent => Ok(None)
    case WrongType => Err(BadErrorPolicy)
    case Found(p) => if p in {"Continue", "Abort"} then Ok(Some(p)) else Err(BadErrorPolicy)
  }

  // ---- the token stream ----

  datatype Token =
    | NullToken
    | ObjectToken(o: Object)
    | BrokenObject           // starts like an object but does not decode as one
    | ScalarToken(v: Json)   // boolean, number or string
    | OpenArray
    | CloseArray
    | Invalid                // not JSON

  datatype TokenKind = NullStart | ObjectStart | ArrayStart | ArrayEnd | OtherStart | NoToken

  function KindAt(ts: seq<Token>, pos: nat): TokenKind {
    if pos >= |ts| then NoToken
    else match ts[pos]
         case NullToken => NullStart
         case ObjectToken(_) => ObjectStart
         case BrokenObject => ObjectStart
         case ScalarToken(_) => OtherStart
         case OpenArray => ArrayStart
         case CloseArray => ArrayEnd
         case Invalid => NoToken
  }

  /**
   What the decoder leaves behind: the applier and the position after it. `parent` is the parent's
   error policy at this moment, or None at the root.
   */
  function ParseValue(d: Defaults, ts: seq<Token>, pos: nat, parent: Option<string>): (r: Result<(Applier, nat), ParseError>)
    ensures r.Ok? ==> pos < r.value.1 <= |ts|
    decreases |ts| - pos, 0
  {
    match KindAt(ts, pos)
    case NullStart => Ok((BLANK, pos + 1))
    case ObjectStart =>
      if ts[pos].BrokenObject? then Err(Malformed)
      else
        var a :- ParseObject(d, ts[pos].o, parent.None?);
        Ok((a, pos + 1))
    case ArrayStart =>
      var (policy, group, end) :- ParseElements(d, ts, pos + 1, 0, "", []);
      if KindAt(ts, end) != ArrayEnd then Err(Malformed)
      else
        var inherited := if policy == "" && parent.Some? then parent.value else policy;
        Ok((BLANK.(kind := GroupKind, errorPolicy := inherited, group := group), end + 1))
    case _ => Err(UnexpectedToken)
  }

  /** The element loop from element i on, with the policy and the group collected so far. */
  function ParseElements(d: Defaults, ts: seq<Token>, pos: nat, i: nat, policy: string, group: seq<Applier>):
    (r: Result<(string, seq<Applier>, nat), ParseError>)
    requires pos <= |ts|
    ensures r.Ok? ==> pos <= r.value.2 <= |ts| && KindAt(ts, r.value.2) in {ArrayEnd, NoToken}
    decreases |ts| - pos, 1
  {
    if KindAt(ts, pos) in {ArrayEnd, NoToken} then Ok((policy, group, pos))
    else
      var (elem, next) :- ParseValue(d, ts, pos, Some(policy));
      if elem.kind.ApplyGroupConfigKind? then
        if i != 0 then Err(ConfigNotFirst)
        else
          var own :- ConfigPolicy(elem.resource.GetOr(map[]));
          ParseElements(d, ts, next, i + 1, if own.Some? then own.value else policy, group)
      else ParseElements(d, ts, next, i + 1, policy, group + [elem])
  }

  // ---- the parser itself ----

  class Decoder {
    const tokens: seq<Token>
    var pos: nat

    ghost predicate Valid() reads this { pos <= |tokens| }

    constructor (tokens: seq<Token>)
      ensures Valid() && this.tokens == tokens && pos == 0
    {
      this.tokens := tokens;
      pos := 0;
    }

    function PeekKind(): TokenKind reads this { KindAt(tokens, pos) }

    /** ReadToken fails at the end of the input and at invalid input. */
    method ReadToken() returns (ok: bool)
      requires Valid()
      modifies this
      ensures Valid() && ok == (old(PeekKind()) != NoToken)
      ensures pos == if ok then old(pos) + 1 else old(pos)
    {
      ok := PeekKind() != NoToken;
      if ok { pos := pos + 1; }
    }

    /** Decoding an object consumes it. */
    method DecodeObject() returns (r: Result<Object, ParseError>)
      requires Valid() && PeekKind() == ObjectStart
      modifies this
      ensures Valid()
      ensures r == if tokens[old(pos)].BrokenObject? then Err(Malformed) else Ok(tokens[old(pos)].o)
      ensures pos == if r.Ok? then old(pos) + 1 else old(pos)
    {
      match tokens[pos] {
        case ObjectToken(o) =>
          r := Ok(o);
          pos := pos + 1;
        case _ => r := Err(Malformed);
      }
    }
  }

  /** UnmarshalJSONFrom. It terminates on every token stream and computes ParseValue. */
  method UnmarshalJSONFrom(dec: Decoder, d: Defaults, parent: Option<string>) returns (r: Result<Applier, ParseError>)
    requires dec.Valid()
    modifies dec
    ensures dec.Valid()
    ensures match ParseValue(d, dec.tokens, old(dec.pos), parent)
            case Ok(v) => r == Ok(v.0) && dec.pos == v.1
            case Err(e) => r == Err(e)
    decreases |dec.tokens| - dec.pos
  {
    var kind := dec.PeekKind();
    match kind {
      case NullStart =>
        var _ := dec.ReadToken();
        return Ok(BLANK);
      case ObjectStart =>
        var o := dec.DecodeObject();
        if o.Err? { return Err(o.error); }
        r := ParseObject(d, o.value, parent.None?);
        return;
      case ArrayStart =>
        r := UnmarshalArray(dec, d, parent);
      case _ =>
        r := Err(UnexpectedToken);
    }
  }

  /** The array branch of UnmarshalJSONFrom. */
  method UnmarshalArray(dec: Decoder, d: Defaults, parent: Option<string>) returns (r: Result<Applier, ParseError>)
    requires dec.Valid() && dec.PeekKind() == ArrayStart
    modifies dec
    ensures dec.Valid()
    ensures match ParseValue(d, dec.tokens, old(dec.pos), parent)
            case Ok(v) => r == Ok(v.0) && dec.pos == v.1
            case Err(e) => r == Err(e)
    decreases |dec.tokens| - dec.pos, 0
  {
    ghost var ts, start := dec.tokens, dec.pos + 1;
    var _ := dec.ReadToken();
    var errorPolicy, group, i := "", [], 0;
    while dec.PeekKind() != ArrayEnd && dec.PeekKind() != NoToken
      invariant start <= dec.pos <= |ts|
      invariant ParseElements(d, ts, start, 0, "", []) == ParseElements(d, ts, dec.pos, i, errorPolicy, group)
      decreases |ts| - dec.pos
    {
      var elem := UnmarshalJSONFrom(dec, d, Some(errorPolicy));
      if elem.Err? { return Err(elem.error); }
      if elem.value.kind.ApplyGroupConfigKind? && i != 0 {
        return Err(ConfigNotFirst);
      } else if elem.value.kind.ApplyGroupConfigKind? {
        var own := ConfigPolicy(elem.value.resource.GetOr(map[]));
        if own.Err? { return Err(own.error); }
        if own.value.Some? { errorPolicy := own.value.value; }
      } else {
        group := group + [elem.value];
      }
      i := i + 1;
    }
    if errorPolicy == "" && parent.Some? {
      errorPolicy := parent.value;
    }
    var closed := dec.ReadToken();
    if !closed { return Err(Malformed); }
    r := Ok(BLANK.(kind := GroupKind, errorPolicy := errorPolicy, group := group));
  }
}
