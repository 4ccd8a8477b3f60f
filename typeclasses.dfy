/** The collab typeclasses (typeclasses.py): the shared `CollabBase`
    behaviour (protection flag, owner, appearance), the exit command set of
    `CollabExit`, and the zone exit cache of `CollabRoom`. */
module Typeclasses {
  import opened Common
  import opened Namespaces
  import opened Extensions
  import opened TemplateCore
  import Strings

  /** `CollabBase.template_permitted`. */
  const TemplatePermitted: seq<string> := ["name"]

  /** The sandbox lets templates read `name` of a collab object and nothing else. */
  lemma CollabBasePermitsOnlyName(attr: string)
    ensures IsSafeAttribute(Some(TemplatePermitted), attr) <==> attr == "name"
  {
  }

  /** Which collab typeclass an entity is. */
  datatype Kind = ObjectKind | CharacterKind | ExitKind | RoomKind | PlayerKind

  /** `CollabExit.priority`, the class default for exit command sets. */
  const ExitClassPriority: int := -30

  /** The exit command `create_exit_cmdset` builds. */
  datatype Command = ExitCommand(
    key: string, aliases: seq<string>, locks: string, autoHelp: bool,
    destination: Option<Ref>, argRegex: string, isExit: bool, obj: Ref)

  /** A command set with the attributes this code sets on it. */
  datatype CmdSet = CmdSet(key: string, priority: Value, duplicates: bool, commands: seq<Command>)

  /** `CmdSet(self)` of a room with the exit command sets added to it, in
      the order they were added. */
  datatype ZoneCmdSet = ZoneCmdSet(cmdsetobj: Ref, parts: seq<CmdSet>)

  /** Lock evaluation and display names come from code outside this model. */
  type LockCheck = (Ref, Ref, string) -> bool           // con.access(accessor, lock type), accessor first
  type DisplayName = (Ref, Ref) -> string               // obj.get_display_name(looker)
  type CollabCheck = (Ref, Option<Ref>, seq<string>) -> bool  // collab_check(actor, target, locks)

  /** A collab entity: its namespace component, the world facts this code
      reads but never changes, and its owner. */
  class CollabBase {
    const ns: NamespaceSet
    const kind: Kind
    const location: Option<Ref>
    const destination: Option<Ref>
    const hasPlayer: bool
    const desc: string            // `db.desc`, empty when unset
    const dbKey: string
    const aliases: seq<string>
    const locks: string           // `str(obj.locks)`
    const contents: seq<CollabBase>
    var owner: Option<Ref>        // the relation behind `get_owner` / `set_owner`

    ghost predicate Valid()
      reads this, ns
    {
      ns.Valid()
    }

    constructor (ns: NamespaceSet, kind: Kind, location: Option<Ref>, destination: Option<Ref>, hasPlayer: bool,
                 desc: string, dbKey: string, aliases: seq<string>, locks: string, contents: seq<CollabBase>,
                 owner: Option<Ref>)
      ensures this.ns == ns && this.kind == kind && this.location == location && this.destination == destination
      ensures this.hasPlayer == hasPlayer && this.desc == desc && this.dbKey == dbKey && this.aliases == aliases
      ensures this.locks == locks && this.contents == contents && this.owner == owner
    {
      this.ns := ns;
      this.kind := kind;
      this.location := location;
      this.destination := destination;
      this.hasPlayer := hasPlayer;
      this.desc := desc;
      this.dbKey := dbKey;
      this.aliases := aliases;
      this.locks := locks;
      this.contents := contents;
      this.owner := owner;
    }

    /** This entity as others refer to it. */
    function AsRef(): Ref { ns.obj }

    /** `check_protected()`: the `protected` attribute of the `imh` tier. */
    function CheckProtected(): (p: Value)
      requires Valid()
      reads this, ns
      ensures "protected" !in ns.stores[ImmortalHidden] ==> p == VNone
      ensures "protected" in ns.stores[ImmortalHidden] ==> p == ns.stores[ImmortalHidden]["protected"]
    {
      Get(ns.stores, ImmortalHidden, "protected")
    }

    /** The `owner` setter: delegates to `set_owner`, changing nothing else. */
    method SetOwner(value: Option<Ref>)
      modifies this`owner
      ensures owner == value
    {
      owner := value;
    }

    /** `create_exit_cmdset(exidbobj, location)`, for a `CollabExit`, with the
        priority selected as written (see `PriorityInverted`). */
    function CreateExitCmdset(exidbobj: CollabBase, location: Option<Ref>, collabCheck: CollabCheck): (r: Option<CmdSet>)
      requires kind == ExitKind
      reads this, ns
      ensures var loc := if location.Some? then location else this.location;
              r.None? <==> owner.Some? && !collabCheck(owner.value, loc, ["open_exit"])
      ensures r.Some? ==> r.value.key == "ExitCmdSet" && r.value.duplicates
      ensures r.Some? ==> r.value.commands == [ExitCommand(Strings.Lower(Strings.Strip(exidbobj.dbKey)), exidbobj.aliases,
                                                           exidbobj.locks, false, exidbobj.destination, "^$", true,
                                                           exidbobj.AsRef())]
      ensures r.Some? ==> r.value.priority == ExitPriorityAsWritten(Get(ns.stores, Wiz, "exit_priority"))
    {
      var loc := if location.Some? then location else this.location;
      if owner.Some? && !collabCheck(owner.value, loc, ["open_exit"]) then None
      else
        var cmd := ExitCommand(Strings.Lower(Strings.Strip(exidbobj.dbKey)), exidbobj.aliases, exidbobj.locks,
                               false, exidbobj.destination, "^$", true, exidbobj.AsRef());
        var priority := ExitPriorityAsWritten(Get(ns.stores, Wiz, "exit_priority"));
        Some(CmdSet("ExitCmdSet", priority, true, [cmd]))
    }

    /** The exit command set with the priority selected as evidently intended:
        the same set as `CreateExitCmdset` but for its priority, which is the
        `exit_priority` override when set and the class default otherwise. The
        two sets coincide only when the override is exactly the default. */
    function CreateExitCmdsetIntended(exidbobj: CollabBase, location: Option<Ref>, collabCheck: CollabCheck)
      : (r: Option<CmdSet>)
      requires kind == ExitKind
      reads this, ns
      ensures var w := CreateExitCmdset(exidbobj, location, collabCheck);
              && (r.Some? <==> w.Some?)
              && (r.Some? ==> r.value.priority == ExitPriorityIntended(Get(ns.stores, Wiz, "exit_priority")))
              && (r.Some? ==> r.value.(priority := w.value.priority) == w.value)
              && (r.Some? ==> (r == w <==> Get(ns.stores, Wiz, "exit_priority") == VInt(ExitClassPriority)))
    {
      var w := CreateExitCmdset(exidbobj, location, collabCheck);
      var override := Get(ns.stores, Wiz, "exit_priority");
      PriorityInverted(override);
      if w.None? then None else Some(w.value.(priority := ExitPriorityIntended(override)))
    }

    /** The loop of `return_appearance` over the contents: each entry the
        looker is shown goes to the exits, the users or the things. */
    method ListContents(l: Ref, displayName: DisplayName, access: LockCheck)
      returns (exits: seq<string>, users: seq<string>, things: seq<string>)
      ensures exits == Names(Members(contents, ExitGroup, l, access), l, displayName, false)
      ensures users == Names(Members(contents, UserGroup, l, access), l, displayName, true)
      ensures things == Names(Members(contents, ThingGroup, l, access), l, displayName, false)
    {
      exits, users, things := [], [], [];
      for i := 0 to |contents|
        invariant exits == Names(Members(contents[..i], ExitGroup, l, access), l, displayName, false)
        invariant users == Names(Members(contents[..i], UserGroup, l, access), l, displayName, true)
        invariant things == Names(Members(contents[..i], ThingGroup, l, access), l, displayName, false)
      {
        var con := contents[i];
        assert contents[..i + 1] == contents[..i] + [con];
        ListStep(contents[..i], con, ExitGroup, l, displayName, access, false);
        ListStep(contents[..i], con, UserGroup, l, displayName, access, true);
        ListStep(contents[..i], con, ThingGroup, l, displayName, access, false);
        if con.AsRef() != l && access(l, con.AsRef(), "view") {
          var key := displayName(con.AsRef(), l);
          if con.destination.Some? {
            exits := exits + [key];
          } else if con.hasPlayer {
            users := users + ["{c" + key + "{n"];
          } else {
            things := things + [key];
          }
        }
      }
      assert contents[..|contents|] == contents;
    }

    /** `return_appearance(looker)`: the loop over the contents and the
        string assembly, as the source runs them. */
    method ReturnAppearance(looker: Option<CollabBase>, displayName: DisplayName, access: LockCheck,
                            render: Renderer, raw: string -> string) returns (r: Result<Option<string>>)
      ensures r == Appearance(this, looker, displayName, access, render, raw)
    {
      if looker.None? {
        return Ok(None);
      }
      var l := looker.value.AsRef();
      var exits, users, things := ListContents(l, displayName, access);
      var name := displayName(AsRef(), l);
      var s := "{c" + name + "{n\n";
      var desc := EvTemplate(this.desc, owner, Some(Observer(l, looker.value.location)), Some(AsRef()), Some("desc"),
                             None, map[], map[], render, raw);
      if desc.Err? {
        return Err(desc.exc);
      }
      s := Assemble(s, desc.value, exits, users, things);
      assert s == Compose(name, desc.value, exits, users, things);
      r := Ok(Some(s));
    }
  }

  /** The string building at the end of `return_appearance`, from the header line on. */
  method Assemble(header: string, desc: string, exits: seq<string>, users: seq<string>, things: seq<string>)
    returns (s: string)
    ensures s == header + desc
                 + (if exits != [] then "\n{wExits:{n " + Strings.Join(exits, ", ") else "")
                 + (if users + things != [] then "\n{wYou see:{n " + Strings.Join(users + things, ", ") else "")
  {
    s := header;
    if desc != "" {
      s := s + desc;
    }
    assert s == header + desc;
    ghost var e := if exits != [] then "\n{wExits:{n " + Strings.Join(exits, ", ") else "";
    if exits != [] {
      s := s + "\n{wExits:{n " + Strings.Join(exits, ", ");
    }
    assert s == header + desc + e;
    if users != [] || things != [] {
      s := s + "\n{wYou see:{n " + Strings.Join(users + things, ", ");
    }
  }

  /** The priority selection as written: the class default when an
      override is set, the (None) override when it is not. */
  function ExitPriorityAsWritten(override: Value): (p: Value)
    ensures override != VNone ==> p == VInt(ExitClassPriority)
    ensures override == VNone ==> p == VNone
  {
    if override != VNone then VInt(ExitClassPriority) else override
  }

  /** The evidently intended selection: the override when set, else the default. */
  function ExitPriorityIntended(override: Value): (p: Value)
    ensures override != VNone ==> p == override
    ensures override == VNone ==> p == VInt(ExitClassPriority)
  {
    if override != VNone then override else VInt(ExitClassPriority)
  }

  /** The two selections disagree on every override except the default
      itself: an unset override yields no priority at all, and a set one is ignored. */
  lemma PriorityInverted(override: Value)
    ensures ExitPriorityAsWritten(override) == ExitPriorityIntended(override) <==> override == VInt(ExitClassPriority)
    ensures ExitPriorityAsWritten(VNone) == VNone
  {
  }

  /** Only the `imh` tier sets the protection flag: a write anywhere else,
      including the publicly writable `pub` tier, leaves it as it was. */
  lemma ProtectedUnforgeable(s: Stores, t: Tier, key: string, v: Value)
    requires t != ImmortalHidden || key != "protected"
    ensures Get(Put(s, t, key, v), ImmortalHidden, "protected") == Get(s, ImmortalHidden, "protected")
  {
    GetPut(s, t, key, v, ImmortalHidden, "protected");
  }

  // ----- Appearance -----

  /** The three kinds of content line `return_appearance` sorts entries into. */
  datatype Group = ExitGroup | UserGroup | ThingGroup

  function GroupOf(con: CollabBase): Group
  {
    if con.destination.Some? then ExitGroup else if con.hasPlayer then UserGroup else ThingGroup
  }

  /** A content entry the looker gets to see: not the looker, and passing `view`. */
  predicate Shown(con: CollabBase, looker: Ref, access: LockCheck)
  {
    con.AsRef() != looker && access(looker, con.AsRef(), "view")
  }

  /** The shown entries of one group, in content order. */
  function Members(cs: seq<CollabBase>, g: Group, looker: Ref, access: LockCheck): (r: seq<CollabBase>)
    ensures |r| <= |cs|
  {
    if cs == [] then []
    else
      var con := cs[|cs| - 1];
      Members(cs[..|cs| - 1], g, looker, access) + (if Shown(con, looker, access) && GroupOf(con) == g then [con] else [])
  }

  /** All shown entries, in content order. */
  function Visible(cs: seq<CollabBase>, looker: Ref, access: LockCheck): (r: seq<CollabBase>)
  {
    if cs == [] then []
    else
      var con := cs[|cs| - 1];
      Visible(cs[..|cs| - 1], looker, access) + (if Shown(con, looker, access) then [con] else [])
  }

  /** The display names of entries; users' names come wrapped in `{c...{n`. */
  function Names(cs: seq<CollabBase>, looker: Ref, displayName: DisplayName, wrap: bool): (r: seq<string>)
    ensures |r| == |cs|
  {
    if cs == [] then []
    else
      var key := displayName(cs[|cs| - 1].AsRef(), looker);
      Names(cs[..|cs| - 1], looker, displayName, wrap) + [if wrap then "{c" + key + "{n" else key]
  }

  /** One step of the contents loop: appending an entry extends the name
      list of group `g` when the entry is shown and belongs to `g`. */
  lemma ListStep(cs: seq<CollabBase>, con: CollabBase, g: Group, l: Ref, displayName: DisplayName, access: LockCheck,
                 wrap: bool)
    ensures Names(Members(cs + [con], g, l, access), l, displayName, wrap)
            == Names(Members(cs, g, l, access), l, displayName, wrap)
               + (if Shown(con, l, access) && GroupOf(con) == g
                  then [if wrap then "{c" + displayName(con.AsRef(), l) + "{n" else displayName(con.AsRef(), l)]
                  else [])
  {
    assert (cs + [con])[..|cs|] == cs;
    var m := Members(cs, g, l, access);
    if Shown(con, l, access) && GroupOf(con) == g {
      assert Members(cs + [con], g, l, access) == m + [con];
      assert (m + [con])[..|m|] == m;
    } else {
      assert Members(cs + [con], g, l, access) == m;
    }
  }

  /** An entry is listed in a group exactly when it is among the contents,
      is shown to the looker, and belongs to that group. In particular the
      looker is never listed, nor anything failing `view`. */
  lemma {:induction false} MembersExactly(cs: seq<CollabBase>, g: Group, looker: Ref, access: LockCheck, x: CollabBase)
    ensures x in Members(cs, g, looker, access) <==> x in cs && Shown(x, looker, access) && GroupOf(x) == g
  {
    if cs != [] {
      var init := cs[..|cs| - 1];
      MembersExactly(init, g, looker, access, x);
      assert cs == init + [cs[|cs| - 1]];
    }
  }

  /** The three groups partition the shown entries: every shown entry lands
      in exactly one of them, each as often as it occurs. */
  lemma {:induction false} GroupsPartitionVisible(cs: seq<CollabBase>, looker: Ref, access: LockCheck)
    ensures multiset(Members(cs, ExitGroup, looker, access)) + multiset(Members(cs, UserGroup, looker, access))
            + multiset(Members(cs, ThingGroup, looker, access)) == multiset(Visible(cs, looker, access))
  {
    if cs != [] {
      GroupsPartitionVisible(cs[..|cs| - 1], looker, access);
    }
  }

  /** The `Exits:` line is there iff some shown entry has a destination; the
      `You see:` line iff some shown entry has none. */
  lemma LinesPresentIff(cs: seq<CollabBase>, looker: Ref, access: LockCheck)
    ensures Members(cs, ExitGroup, looker, access) != []
            <==> exists c :: c in cs && Shown(c, looker, access) && c.destination.Some?
    ensures Members(cs, UserGroup, looker, access) + Members(cs, ThingGroup, looker, access) != []
            <==> exists c :: c in cs && Shown(c, looker, access) && c.destination.None?
  {
    var e := Members(cs, ExitGroup, looker, access);
    var u := Members(cs, UserGroup, looker, access);
    var t := Members(cs, ThingGroup, looker, access);
    if e != [] {
      MembersExactly(cs, ExitGroup, looker, access, e[0]);
    }
    if exists c :: c in cs && Shown(c, looker, access) && c.destination.Some? {
      var c :| c in cs && Shown(c, looker, access) && c.destination.Some?;
      MembersExactly(cs, ExitGroup, looker, access, c);
    }
    if u != [] {
      MembersExactly(cs, UserGroup, looker, access, u[0]);
    }
    if t != [] {
      MembersExactly(cs, ThingGroup, looker, access, t[0]);
    }
    if exists c :: c in cs && Shown(c, looker, access) && c.destination.None? {
      var c :| c in cs && Shown(c, looker, access) && c.destination.None?;
      MembersExactly(cs, GroupOf(c), looker, access, c);
    }
  }

  /** The text for a looker: the header, the rendered description, the
      `Exits:` line and the `You see:` line (users before things), each
      line only when it has entries. */
  function Compose(header: string, desc: string, exits: seq<string>, users: seq<string>, things: seq<string>): string
  {
    "{c" + header + "{n\n" + desc
    + (if exits != [] then "\n{wExits:{n " + Strings.Join(exits, ", ") else "")
    + (if users + things != [] then "\n{wYou see:{n " + Strings.Join(users + things, ", ") else "")
  }

  /** What `return_appearance(looker)` returns: nothing for no looker;
      otherwise the composed text, the description evaluated with the
      owner as `run_as`; an exception from `evtemplate` propagates. */
  function Appearance(self: CollabBase, looker: Option<CollabBase>, displayName: DisplayName, access: LockCheck,
                      render: Renderer, raw: string -> string): (r: Result<Option<string>>)
    reads self
    ensures looker.None? <==> r == Ok(None)
  {
    if looker.None? then Ok(None)
    else
      var l := looker.value.AsRef();
      var desc := EvTemplate(self.desc, self.owner, Some(Observer(l, looker.value.location)), Some(self.AsRef()),
                             Some("desc"), None, map[], map[], render, raw);
      match desc
      case Err(e) => Err(e)
      case Ok(text) =>
        Ok(Some(Compose(displayName(self.AsRef(), l), text,
                        Names(Members(self.contents, ExitGroup, l, access), l, displayName, false),
                        Names(Members(self.contents, UserGroup, l, access), l, displayName, true),
                        Names(Members(self.contents, ThingGroup, l, access), l, displayName, false))))
  }

  /** The appearance always opens with the `{c<name>{n` header line. */
  lemma AppearanceStartsWithHeader(self: CollabBase, looker: CollabBase, displayName: DisplayName, access: LockCheck,
                                   render: Renderer, raw: string -> string)
    requires Appearance(self, Some(looker), displayName, access, render, raw).Ok?
    ensures var r := Appearance(self, Some(looker), displayName, access, render, raw).value;
            var header := "{c" + displayName(self.AsRef(), looker.AsRef()) + "{n\n";
            r.Some? && |header| <= |r.value| && r.value[..|header|] == header
  {
    var l := looker.AsRef();
    var desc := EvTemplate(self.desc, self.owner, Some(Observer(l, looker.location)), Some(self.AsRef()),
                           Some("desc"), None, map[], map[], render, raw);
    var name := displayName(self.AsRef(), l);
    var e := Names(Members(self.contents, ExitGroup, l, access), l, displayName, false);
    var u := Names(Members(self.contents, UserGroup, l, access), l, displayName, true);
    var t := Names(Members(self.contents, ThingGroup, l, access), l, displayName, false);
    assert Appearance(self, Some(looker), displayName, access, render, raw) == Ok(Some(Compose(name, desc.value, e, u, t)));
    ComposeStartsWithHeader(name, desc.value, e, u, t);
  }

  /** The composed text opens with the header line. */
  lemma ComposeStartsWithHeader(name: string, desc: string, exits: seq<string>, users: seq<string>, things: seq<string>)
    ensures var c := Compose(name, desc, exits, users, things);
            var header := "{c" + name + "{n\n";
            |header| <= |c| && c[..|header|] == header
  {
    var header := "{c" + name + "{n\n";
    var c := Compose(name, desc, exits, users, things);
    var rest := desc
      + (if exits != [] then "\n{wExits:{n " + Strings.Join(exits, ", ") else "")
      + (if users + things != [] then "\n{wYou see:{n " + Strings.Join(users + things, ", ") else "");
    assert c == header + rest;
  }

  /** An entity whose description is empty and which nothing in it is shown
      to the looker shows just the header line: unowned, the raw empty string
      is used; owned, the renderer turns the empty template into empty text. */
  lemma EmptyRoomShowsHeaderOnly(self: CollabBase, looker: CollabBase, displayName: DisplayName, access: LockCheck,
                                 render: Renderer, raw: string -> string)
    requires self.desc == ""
    requires self.owner.None? || forall g, c :: render("", g, c) == Rendered("")
    requires forall c :: c in self.contents ==> !Shown(c, looker.AsRef(), access)
    ensures Appearance(self, Some(looker), displayName, access, render, raw)
         == Ok(Some("{c" + displayName(self.AsRef(), looker.AsRef()) + "{n\n"))
  {
    var l := looker.AsRef();
    forall g ensures Members(self.contents, g, l, access) == [] {
      if Members(self.contents, g, l, access) != [] {
        MembersExactly(self.contents, g, l, access, Members(self.contents, g, l, access)[0]);
      }
    }
    var me := Some(Observer(l, looker.location));
    if self.owner.Some? {
      var g := Globals(map[], me.value, self.owner.value, self.AsRef(), EffectiveHere(None, me.value), Some("desc"));
      assert render("", g, map[]) == Rendered("");
    }
    assert EvTemplate(self.desc, self.owner, me, Some(self.AsRef()), Some("desc"), None, map[], map[], render, raw) == Ok("");
    var name := displayName(self.AsRef(), l);
    assert Compose(name, "", [], [], []) == "{c" + name + "{n\n";
  }

  /** The description runs with the owner's authority, never the looker's:
      the appearance depends on the renderer only for calls whose globals
      bind `run_as`, `fetch` and `store` to the owner. */
  lemma DescRunsAsOwner(self: CollabBase, looker: CollabBase, displayName: DisplayName, access: LockCheck,
                        r1: Renderer, r2: Renderer, raw: string -> string)
    requires self.owner.Some?
    requires forall src, g, c ::
               RunsWith(g, Observer(looker.AsRef(), looker.location), self.owner.value, self.AsRef(), looker.location) ==>
               r1(src, g, c) == r2(src, g, c)
    ensures Appearance(self, Some(looker), displayName, access, r1, raw)
         == Appearance(self, Some(looker), displayName, access, r2, raw)
  {
    var me := Observer(looker.AsRef(), looker.location);
    RenderRunsAsRunAs(self.desc, self.owner.value, me, Some(self.AsRef()), Some("desc"), None, map[], map[], r1, r2, raw);
  }

  // ----- Zone exits -----

  /** The exits the tag index returns for each of the room's zone tags, in
      tag order, then in search order. */
  function TaggedExits(tags: seq<string>, search: string -> seq<CollabBase>): seq<CollabBase>
  {
    if tags == [] then [] else TaggedExits(tags[..|tags| - 1], search) + search(tags[|tags| - 1])
  }

  /** `exit.destination and hasattr(exit, 'create_exit_cmdset')`. */
  predicate Eligible(e: CollabBase)
  {
    e.destination.Some? && e.kind == ExitKind
  }

  /** What one tagged exit contributes: its command set, built for the
      room, when it is eligible and its owner may open exits there. */
  function Built(e: CollabBase, room: Ref, collabCheck: CollabCheck): Option<CmdSet>
    reads e, e.ns
  {
    if Eligible(e) then e.CreateExitCmdset(e, Some(room), collabCheck) else None
  }

  /** The command sets the eligible exits contribute, in exit order. */
  function Contributions(exits: seq<CollabBase>, room: Ref, collabCheck: CollabCheck): (r: seq<CmdSet>)
    reads exits, set e | e in exits :: e.ns
    ensures |r| <= |exits|
  {
    if exits == [] then []
    else
      var e := exits[|exits| - 1];
      var b := Built(e, room, collabCheck);
      Contributions(exits[..|exits| - 1], room, collabCheck) + (if b.Some? then [b.value] else [])
  }

  /** Every contributed command set comes from an eligible exit built for the
      room, and every eligible exit that passes its check contributes. */
  lemma {:induction false} ContributionsExactly(exits: seq<CollabBase>, room: Ref, collabCheck: CollabCheck, p: CmdSet)
    ensures p in Contributions(exits, room, collabCheck) <==>
              exists e :: e in exits && Built(e, room, collabCheck) == Some(p)
  {
    if exits != [] {
      var init := exits[..|exits| - 1];
      var last := exits[|exits| - 1];
      ContributionsExactly(init, room, collabCheck, p);
      var b := Built(last, room, collabCheck);
      assert Contributions(exits, room, collabCheck)
          == Contributions(init, room, collabCheck) + (if b.Some? then [b.value] else []);
      if p in Contributions(init, room, collabCheck) {
        var e :| e in init && Built(e, room, collabCheck) == Some(p);
        assert e in exits;
      } else if p in Contributions(exits, room, collabCheck) {
        assert b == Some(p);
      }
      if exists e :: e in exits && Built(e, room, collabCheck) == Some(p) {
        var e :| e in exits && Built(e, room, collabCheck) == Some(p);
        if e != last {
          assert e in init;
        }
      }
    }
  }

  /** `CollabRoom`: a room entity with its transient zone cache. */
  class CollabRoom {
    const obj: CollabBase
    const zoneTags: seq<string>         // `tags.get(category='zone_room')`, as a list
    var zoneCmdset: Option<ZoneCmdSet>  // `ndb.zone_cmdset`
    var handler: seq<ZoneCmdSet>        // the zone command sets in the room's cmdset handler
    ghost var builds: nat               // how often the zone command set was built

    /** A built cache is registered in the room's handler. */
    ghost predicate Valid()
      reads this
    {
      zoneCmdset.Some? ==> zoneCmdset.value in handler
    }

    constructor (obj: CollabBase, zoneTags: seq<string>)
      ensures Valid()
      ensures this.obj == obj && this.zoneTags == zoneTags
      ensures zoneCmdset.None? && handler == [] && builds == 0
    {
      this.obj := obj;
      this.zoneTags := zoneTags;
      zoneCmdset := None;
      handler := [];
      builds := 0;
    }

    /** The zone command set the room would build now. */
    function ZoneSpec(search: string -> seq<CollabBase>, collabCheck: CollabCheck): ZoneCmdSet
      reads TaggedExits(zoneTags, search), set e | e in TaggedExits(zoneTags, search) :: e.ns
    {
      ZoneCmdSet(obj.AsRef(), Contributions(TaggedExits(zoneTags, search), obj.AsRef(), collabCheck))
    }

    /** `zone_exit_commandset()`: gather the tagged exits, then add the
        command set of each eligible one. */
    method ZoneExitCommandset(search: string -> seq<CollabBase>, collabCheck: CollabCheck) returns (z: ZoneCmdSet)
      ensures z == ZoneSpec(search, collabCheck)
      ensures zoneTags == [] ==> z.parts == []
      ensures z.cmdsetobj == obj.AsRef()
    {
      var exits := GatherExits(zoneTags, search);
      var parts := BuildParts(exits, obj.AsRef(), collabCheck);
      z := ZoneCmdSet(obj.AsRef(), parts);
    }

    /** `at_cmdset_get()`: build and register the zone command set once;
        later calls find it cached and change nothing. */
    method AtCmdsetGet(search: string -> seq<CollabBase>, collabCheck: CollabCheck)
      requires Valid()
      modifies this`zoneCmdset, this`handler, this`builds
      ensures Valid() && zoneCmdset.Some?
      ensures old(zoneCmdset).Some? ==> zoneCmdset == old(zoneCmdset) && handler == old(handler) && builds == old(builds)
      ensures old(zoneCmdset).None? ==>
                && zoneCmdset == Some(ZoneSpec(search, collabCheck))
                && handler == old(handler) + [zoneCmdset.value]
                && builds == old(builds) + 1
    {
      if zoneCmdset.None? {
        var z := ZoneExitCommandset(search, collabCheck);
        zoneCmdset := Some(z);
        handler := handler + [z];
        builds := builds + 1;
      }
    }

    /** `reset_zone_cmdset()`: drop a built zone command set from the
        handler and the cache; with no cache, do nothing. */
    method ResetZoneCmdset()
      requires Valid()
      modifies this`zoneCmdset, this`handler
      ensures Valid() && zoneCmdset.None?
      ensures old(zoneCmdset).None? ==> handler == old(handler)
      ensures old(zoneCmdset).Some? ==> handler == Without(old(handler), old(zoneCmdset).value)
    {
      if zoneCmdset.Some? {
        handler := Without(handler, zoneCmdset.value);
        zoneCmdset := None;
      }
    }

    /** Two lookups without a reset build at most once and see the same set. */
    method ResolveTwice(search: string -> seq<CollabBase>, collabCheck: CollabCheck)
      returns (first: ZoneCmdSet, second: ZoneCmdSet)
      requires Valid()
      modifies this`zoneCmdset, this`handler, this`builds
      ensures Valid()
      ensures first == second && builds <= old(builds) + 1
    {
      AtCmdsetGet(search, collabCheck);
      first := zoneCmdset.value;
      AtCmdsetGet(search, collabCheck);
      second := zoneCmdset.value;
    }

    /** After a reset the next lookup rebuilds from the current tag index. */
    method ResetThenResolve(search: string -> seq<CollabBase>, collabCheck: CollabCheck)
      requires Valid()
      modifies this`zoneCmdset, this`handler, this`builds
      ensures Valid()
      ensures zoneCmdset == Some(ZoneSpec(search, collabCheck)) && builds == old(builds) + 1
    {
      ResetZoneCmdset();
      AtCmdsetGet(search, collabCheck);
    }
  }

  /** The first loop of `zone_exit_commandset`: the exits under each zone tag. */
  method GatherExits(tags: seq<string>, search: string -> seq<CollabBase>) returns (exits: seq<CollabBase>)
    ensures exits == TaggedExits(tags, search)
  {
    exits := [];
    for i := 0 to |tags|
      invariant exits == TaggedExits(tags[..i], search)
    {
      assert tags[..i + 1][..i] == tags[..i];
      exits := exits + search(tags[i]);
    }
    assert tags[..|tags|] == tags;
  }

  /** The second loop of `zone_exit_commandset`: add each eligible exit's
      command set, built for the room. */
  method BuildParts(exits: seq<CollabBase>, room: Ref, collabCheck: CollabCheck) returns (parts: seq<CmdSet>)
    ensures parts == Contributions(exits, room, collabCheck)
  {
    parts := [];
    for j := 0 to |exits|
      invariant parts == Contributions(exits[..j], room, collabCheck)
    {
      var e := exits[j];
      assert exits[..j + 1][..j] == exits[..j];
      assert exits[..j + 1][j] == e;
      if e.destination.Some? && e.kind == ExitKind {
        var c := e.CreateExitCmdset(e, Some(room), collabCheck);
        if c.Some? {
          parts := parts + [c.value];
        }
      }
    }
    assert exits[..|exits|] == exits;
  }

  /** `cmdset.remove(z)` on the room's handler: every registration of `z` goes. */
  function Without(s: seq<ZoneCmdSet>, z: ZoneCmdSet): (r: seq<ZoneCmdSet>)
    ensures z !in r
    ensures forall x :: x in r <==> x in s && x != z
  {
    if s == [] then [] else Without(s[..|s| - 1], z) + (if s[|s| - 1] == z then [] else [s[|s| - 1]])
  }
}
