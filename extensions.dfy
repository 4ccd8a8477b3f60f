/** The helpers the template sandbox exposes (template/extensions.py):
    the `safe` marker, `perm_bind`, the permission-checked `getter` and
    `setter` behind `fetch` and `store`, and the gender map lookup. */
module Extensions {
  import opened Common
  import opened Namespaces
  import Strings

  /** The Python functions the template globals can hold. */
  datatype Builtin = GetterFn | SetterFn | CollabCheckFn | PronounSubFn

  function FunctionName(f: Builtin): string
  {
    match f
    case GetterFn => "getter"
    case SetterFn => "setter"
    case CollabCheckFn => "collab_check"
    case PronounSubFn => "pronoun_sub"
  }

  /** A Python callable as the sandbox sees it: the function it ends up
      running, the `run_as` a `perm_bind` wrapper passes in front of the
      caller's arguments, and its `evtemplate_safe` attribute. */
  datatype Callable = Callable(fn: Builtin, boundRunAs: Option<Ref>, evtemplateSafe: bool)

  /** A value handed to a template: as a global, or as a call argument. */
  datatype Global =
    | GEntity(ref: Ref)
    | GNone
    | GText(text: string)
    | GCallable(callable: Callable)
    | GData(data: Value)

  /** `safe(func)`: the same function, now carrying `evtemplate_safe = True`. */
  function Safe(func: Callable): (r: Callable)
    ensures r.evtemplateSafe
    ensures r.fn == func.fn && r.boundRunAs == func.boundRunAs
  {
    func.(evtemplateSafe := true)
  }

  /** `perm_bind(func, run_as)`: a safe wrapper that runs `func` as `run_as`. */
  function PermBind(func: Builtin, runAs: Ref): (w: Callable)
    ensures w.evtemplateSafe && w.fn == func && w.boundRunAs == Some(runAs)
  {
    Safe(Callable(func, Some(runAs), false))
  }

  /** `perm_check = safe(collab_check)`: exposed unbound. */
  const PermCheck: Callable := Safe(Callable(CollabCheckFn, None, false))

  /** `perm_check` is `collab_check` itself, marked safe and bound to no one:
      a template calling it names the actor explicitly. */
  lemma PermCheckIsSafeUnbound()
    ensures PermCheck.evtemplateSafe && PermCheck.fn == CollabCheckFn && PermCheck.boundRunAs.None?
  {
  }

  /** Calling a `perm_bind` wrapper with `args` and `kwargs`: the wrapped
      function receives the bound `run_as` as its first positional argument,
      followed by the caller's positional arguments, and the caller's keyword
      arguments unchanged. Both `getter` and `setter` name that parameter
      `run_as`, so a caller that also passes `run_as=` as a keyword is refused
      by Python instead of choosing the authority. */
  function BoundCall(w: Callable, args: seq<Global>, kwargs: map<string, Global>)
    : (r: Result<(seq<Global>, map<string, Global>)>)
    requires w.boundRunAs.Some?
    ensures "run_as" in kwargs ==> r.Err? && r.exc.typeName == "TypeError"
    ensures "run_as" !in kwargs ==> r.Ok?
    ensures r.Ok? ==> var (pos, kw) := r.value;
                      |pos| == |args| + 1 && pos[0] == GEntity(w.boundRunAs.value) && pos[1..] == args && kw == kwargs
  {
    if "run_as" in kwargs then
      Err(Exc("TypeError", FunctionName(w.fn) + "() got multiple values for keyword argument 'run_as'"))
    else
      Ok(([GEntity(w.boundRunAs.value)] + args, kwargs))
  }

  /** A template can never make a bound `fetch` or `store` run as anyone
      but the `run_as` it was bound to. */
  lemma PermBindFixesAuthority(func: Builtin, runAs: Ref, args: seq<Global>, kwargs: map<string, Global>)
    ensures BoundCall(PermBind(func, runAs), args, kwargs).Ok? ==>
              BoundCall(PermBind(func, runAs), args, kwargs).value.0[0] == GEntity(runAs)
  {
  }

  datatype Access = Read | Write

  /** The collaborators of `getter` and `setter` whose code is not part of
      this model: `prefix_check` maps a property name to the attribute name
      and the tier handler it lives in, `attr_check` decides access, and
      `repr` is Python's `repr`. */
  datatype Sandbox = Sandbox(
    prefixCheck: (Ref, string) -> (string, Tier),
    attrCheck: (Ref, Ref, Access, Tier) -> bool,
    repr: Value -> string)

  function ReadDenied(runAs: Ref, propName: string, target: Ref): Exc
  {
    SecurityError(runAs.key + " does not have read access to property '" + propName + "' on " + target.key)
  }

  function WriteDenied(runAs: Ref, propName: string, target: Ref): Exc
  {
    SecurityError(runAs.key + " does not have write access to property '" + propName + "' on " + target.key)
  }

  function UnsafeRead(propName: string, target: Ref): Exc
  {
    SecurityError("'" + propName + "' on " + target.key + " contains data which cannot be securely sandboxed.")
  }

  function UnsafeWrite(reprText: string): Exc
  {
    SecurityError(reprText + " contains data which cannot be securely sandboxed.")
  }

  /** `getter(run_as, target, prop_name)` over the target's attribute stores. */
  function Getter(runAs: Ref, target: Ref, stores: Stores, propName: string, sb: Sandbox): (r: Result<Value>)
    ensures var (name, tier) := sb.prefixCheck(target, propName);
            && (!sb.attrCheck(runAs, target, Read, tier) ==> r == Err(ReadDenied(runAs, propName, target)))
            && (sb.attrCheck(runAs, target, Read, tier) && Serialisable(Get(stores, tier, name)) ==>
                  r == Ok(Get(stores, tier, name)))
            && (sb.attrCheck(runAs, target, Read, tier) && !Serialisable(Get(stores, tier, name)) ==>
                  r == Err(UnsafeRead(propName, target)))
  {
    var (name, tier) := sb.prefixCheck(target, propName);
    if sb.attrCheck(runAs, target, Read, tier) then
      var v := Get(stores, tier, name);
      if Serialisable(v) then
        JsonCopyIsEqual(v);
        Ok(JsonCopy(v))
      else
        Err(UnsafeRead(propName, target))
    else
      Err(ReadDenied(runAs, propName, target))
  }

  /** What `setter(run_as, target, prop_name, prop_val)` returns and what the
      target's stores hold afterwards. Permission is checked first, then
      serialisability; only a write that passes both changes the stores. */
  function SetterResult(runAs: Ref, target: Ref, stores: Stores, propName: string, propVal: Value, sb: Sandbox)
    : (r: (Result<string>, Stores))
    ensures var (name, tier) := sb.prefixCheck(target, propName);
            && (!sb.attrCheck(runAs, target, Write, tier) ==>
                  r == (Err(WriteDenied(runAs, propName, target)), stores))
            && (sb.attrCheck(runAs, target, Write, tier) && !Serialisable(propVal) ==>
                  r == (Err(UnsafeWrite(sb.repr(propVal))), stores))
            && (sb.attrCheck(runAs, target, Write, tier) && Serialisable(propVal) ==>
                  r == (Ok(""), Put(stores, tier, name, propVal)))
  {
    var (name, tier) := sb.prefixCheck(target, propName);
    if !sb.attrCheck(runAs, target, Write, tier) then (Err(WriteDenied(runAs, propName, target)), stores)
    else if !Serialisable(propVal) then (Err(UnsafeWrite(sb.repr(propVal))), stores)
    else (Ok(""), Put(stores, tier, name, propVal))
  }

  /** `setter`: the permission check, the sandbox check, then `handler.add`. */
  method Setter(runAs: Ref, target: NamespaceSet, propName: string, propVal: Value, sb: Sandbox)
    returns (r: Result<string>)
    requires target.Valid()
    modifies target`stores
    ensures target.Valid()
    ensures (r, target.stores) == SetterResult(runAs, target.obj, old(target.stores), propName, propVal, sb)
  {
    var (name, tier) := sb.prefixCheck(target.obj, propName);
    if sb.attrCheck(runAs, target.obj, Write, tier) {
      if !Serialisable(propVal) {
        return Err(UnsafeWrite(sb.repr(propVal)));
      }
      target.stores := Put(target.stores, tier, name, propVal);
      return Ok("");
    }
    r := Err(WriteDenied(runAs, propName, target.obj));
  }

  /** A permitted `store` followed by a permitted `fetch` of the same property
      returns the value stored, whoever reads it. */
  lemma StoreThenFetch(writer: Ref, reader: Ref, target: Ref, stores: Stores, propName: string, v: Value, sb: Sandbox)
    requires sb.attrCheck(writer, target, Write, sb.prefixCheck(target, propName).1)
    requires sb.attrCheck(reader, target, Read, sb.prefixCheck(target, propName).1)
    requires Serialisable(v)
    ensures SetterResult(writer, target, stores, propName, v, sb).0 == Ok("")
    ensures Getter(reader, target, SetterResult(writer, target, stores, propName, v, sb).1, propName, sb) == Ok(v)
  {
    var (name, tier) := sb.prefixCheck(target, propName);
    GetPut(stores, tier, name, v, tier, name);
  }

  /** A `store` changes what `fetch` returns for that property only: a
      property that resolves to another attribute or another tier reads as
      before, whether the store succeeded or not. */
  lemma StoreIsolated(writer: Ref, reader: Ref, target: Ref, stores: Stores, p: string, v: Value, q: string, sb: Sandbox)
    requires sb.prefixCheck(target, p) != sb.prefixCheck(target, q)
    ensures Getter(reader, target, SetterResult(writer, target, stores, p, v, sb).1, q, sb)
         == Getter(reader, target, stores, q, sb)
  {
    var (pn, pt) := sb.prefixCheck(target, p);
    var (qn, qt) := sb.prefixCheck(target, q);
    GetPut(stores, pt, pn, v, qt, qn);
  }

  /** The gender a target's `usr` attributes request: `neutral` when unset,
      lowercased; `None` when the stored value is not a string. */
  function RequestedGender(usr: map<string, Value>): Option<string>
  {
    if "gender" !in usr then Some("neutral")
    else if usr["gender"].VStr? then Some(Strings.Lower(usr["gender"].s))
    else None
  }

  /** `get_gender_map(target)`: the pronoun map, extended by the target's
      `custom_gender_map` when that is a mapping, and the requested gender,
      replaced by `neutral` when the merged map has no entry for it. */
  method GetGenderMap(target: NamespaceSet, pronounMap: map<string, Value>)
    returns (r: Result<(string, map<string, Value>)>)
    requires target.Valid()
    ensures var usr := target.stores[User];
            && (r.Err? <==> RequestedGender(usr).None?)
            && (r.Err? ==> r.exc.typeName == "AttributeError")
    ensures var usr := target.stores[User];
            r.Ok? ==>
              && r.value.1 == (if "custom_gender_map" in usr && usr["custom_gender_map"].VDict?
                               then pronounMap + usr["custom_gender_map"].entries
                               else pronounMap)
              && (RequestedGender(usr).value in r.value.1 ==> r.value.0 == RequestedGender(usr).value)
              && (RequestedGender(usr).value !in r.value.1 ==> r.value.0 == "neutral")
  {
    var usr := target.stores[User];
    var gender := "neutral";
    if "gender" in usr {
      match usr["gender"]
      case VStr(s) => gender := s;
      case _ => return Err(Exc("AttributeError", "object has no attribute 'lower'"));
    }
    gender := Strings.Lower(gender);
    var genderMap := pronounMap;
    var custom := if "custom_gender_map" in usr then usr["custom_gender_map"] else VNone;
    if custom.VDict? {
      genderMap := genderMap + custom.entries;
    }
    gender := if gender in genderMap then gender else "neutral";
    r := Ok((gender, genderMap));
  }
}
