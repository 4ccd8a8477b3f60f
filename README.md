# Collab permissions and templates — a Dafny model

This project models the core of Evennia's `collab` contrib: the multi-user
building layer in which every object has an owner, attributes live in six
permission tiers, and object descriptions are sandboxed Jinja templates that
run with the owner's authority.

* `common.dfy` (module `Common`) holds the shared vocabulary: options, Python
  exceptions as values (`Exc`), results, entity references, and attribute
  values with a structural test for JSON serialisability.
* `strings.dfy` (module `Strings`) holds the Python string operations the code
  relies on: `join`, `split`, decimal formatting, `strip` and `lower`.
* `namespaces.dfy` (module `Namespaces`) models the six tiers and the `<tag>db`
  holder properties generated for them (`typeclasses.py`):
  * the `wizh`, `wiz`, `imh`, `pub`, `usr` and `usrh` tiers;
  * the memoised holder getter;
  * the setter and deleter that refuse.
* `extensions.py` becomes module `Extensions` (`extensions.dfy`):
  * `safe` and `perm_bind`;
  * the permission-checked `getter` and `setter` behind a template's `fetch`
    and `store`;
  * `get_gender_map`.
* `core.py` becomes module `TemplateCore` (`template_core.dfy`):
  * the sandbox's allow rules;
  * `evtemplate`: its guards, the globals it binds and its error reports.
* The collab typeclasses become module `Typeclasses` (`typeclasses.dfy`):
  * `CollabBase`: the protection flag, the owner and `return_appearance`;
  * `CollabExit`'s `create_exit_cmdset`;
  * `CollabRoom`'s zone exit cache.

The model keeps the source's form. Objects whose state changes are classes:
* a namespace set with its stores and memoised holders;
* a collab entity with its owner;
* a room with its cached zone command set and its command set handler.

The loops of the source are methods with loop invariants, proved equal to
specification functions:
* the contents loop of `return_appearance`;
* the two loops of `zone_exit_commandset`;
* the source-line loop of the syntax-error report.

The rest of the properties are lemmas about those functions.

Code outside the core is a parameter of the operations that call it:
* the permission predicates of `perms.py`: `prefix_check`, `attr_check`,
  `collab_check` and the `view` lock;
* display names, `repr` and `ansi.raw`;
* the tag search;
* the Jinja renderer itself.

The Jinja renderer is a function from the source, the globals and the
context to one outcome: rendered text, a syntax error, a missing include or
a raised exception with its innermost traceback frame.

## Model

| member | source | states |
|---|---|---|
| Common.JsonCopyIsEqual | evennia/contrib/collab/template/extensions.py:99-106 | the `json.loads(json.dumps(v))` copy `getter` hands out equals the stored value for every serialisable value |
| Strings.JoinEndsWithLast | evennia/contrib/collab/template/core.py:97-101 | a listing joined with newlines ends with its last entry, the error text |
| Strings.JoinSplit | evennia/contrib/collab/template/core.py:95 | splitting the template source on newlines and joining back with newlines gives the source, so the numbered listing covers every line |
| Strings.ParseNatToString | evennia/contrib/collab/template/core.py:95 | the decimal line numbers of the listing read back as the numbers written |
| Strings.NatToStringInjective | evennia/contrib/collab/template/core.py:95 | distinct lines get distinct line numbers |
| Strings.StripIsTrimmedSlice | evennia/contrib/collab/typeclasses.py:215 | the stripped exit key is a slice of the key with only whitespace cut off its two ends |
| Strings.StripEndsNotSpace | evennia/contrib/collab/typeclasses.py:215 | the stripped exit key neither starts nor ends with whitespace |
| Strings.LowerIdempotent | evennia/contrib/collab/typeclasses.py:215 | lowercasing a lowercased key changes nothing |
| Strings.NormaliseKeyIdempotent | evennia/contrib/collab/typeclasses.py:215 | `strip().lower()` applied to an already normalised exit key gives it back unchanged |
| Namespaces.Tag | evennia/contrib/collab/typeclasses.py:24-80 | each tier's `_attrtype` is a three- or four-letter tag |
| Namespaces.InitializersEnumerateTiers | evennia/contrib/collab/typeclasses.py:83-85 | `initializers` lists six pairwise distinct handlers that cover every tier, so every tier gets a property |
| Namespaces.LabelsDistinct | evennia/contrib/collab/typeclasses.py:141-144 | distinct tiers get distinct `<tag>db` labels and distinct `<tag>attributes` handler names, so no generated property overwrites another |
| Namespaces.Put | evennia/contrib/collab/template/extensions.py:126 | a write through a tier's holder leaves the set of tiers as it was, apart from adding that tier |
| Namespaces.GetPut | evennia/contrib/collab/template/extensions.py:93 | tiers are storage-disjoint: a write is read back through its own tier and key and is invisible through every other tier or key |
| Namespaces.AssignDb | evennia/contrib/collab/typeclasses.py:158-161 | assigning to `obj.<tag>db` raises Python's arity `TypeError`, never the labelled message the setter builds |
| Namespaces.AssignDbIntended | evennia/contrib/collab/typeclasses.py:158-161 | the setter's own message names the property's label where "Cannot assign directly to " ends |
| Namespaces.DeleteDb | evennia/contrib/collab/typeclasses.py:163-165 | deleting `obj.<tag>db` always raises `Exception` whose message names the label |
| Namespaces.NamespaceSet.Db | evennia/contrib/collab/typeclasses.py:151-156 | the first access builds a fresh holder for the tier and records it; every later access returns that same holder and changes nothing |
| Namespaces.Holder.SetAttr | evennia/contrib/collab/typeclasses.py:151-156 | setting an attribute through a holder changes that tier only, and the holder then reads back the value |
| Namespaces.DbIsMemoised | evennia/contrib/collab/typeclasses.py:151-156 | two reads of `<tag>db` give one and the same holder |
| Extensions.Safe | evennia/contrib/collab/template/extensions.py:16-21 | `safe` marks a function as template-safe and leaves everything else about it unchanged |
| Extensions.PermBind | evennia/contrib/collab/template/extensions.py:76-84 | the wrapper is template-safe, wraps the given function and is bound to the given `run_as` |
| Extensions.BoundCall | evennia/contrib/collab/template/extensions.py:82-83 | a caller passing a `run_as` keyword gets Python's duplicate-argument `TypeError`; otherwise the wrapped function receives the bound `run_as` first, then the caller's positional arguments, and the caller's keyword arguments unchanged |
| Extensions.PermCheckIsSafeUnbound | evennia/contrib/collab/template/extensions.py:135 | `perm_check` is `collab_check` marked template-safe and bound to no `run_as` |
| Extensions.PermBindFixesAuthority | evennia/contrib/collab/template/extensions.py:76-84 | a template can never make a bound `fetch` or `store` run as anyone other than its bound `run_as` |
| Extensions.Getter | evennia/contrib/collab/template/extensions.py:87-111 | a read without permission fails with the read-access `SecurityError`; a permitted read of serialisable data returns the stored value; a permitted read of other data fails with the sandboxing `SecurityError` |
| Extensions.SetterResult | evennia/contrib/collab/template/extensions.py:114-132 | without permission the write fails and nothing changes; with permission, unserialisable data fails naming its `repr` and nothing changes; otherwise `''` is returned and exactly that tier and key is written |
| Extensions.Setter | evennia/contrib/collab/template/extensions.py:114-132 | the method's result and new stores are those of `SetterResult`, and every tier stays present |
| Extensions.StoreThenFetch | evennia/contrib/collab/template/tests.py:71-87 | a permitted `store` of serialisable data followed by a permitted `fetch` of the same property returns the stored value, whoever reads it |
| Extensions.StoreIsolated | evennia/contrib/collab/template/extensions.py:118-126 | a `store`, whether it succeeds or fails, leaves `fetch` of every property that resolves elsewhere as it was |
| Extensions.GetGenderMap | evennia/contrib/collab/template/extensions.py:37-44 | the map is the pronoun map extended by a custom map only when that is a mapping; the gender is the stored one lowercased (`neutral` when unset) when the map has it, else `neutral`; a non-string gender raises `AttributeError` |
| TemplateCore.IsSafeAttribute | evennia/contrib/collab/template/core.py:28-31 | an attribute is readable exactly when the object declares `template_permitted` and lists it |
| TemplateCore.IsSafeCallable | evennia/contrib/collab/template/core.py:33-34 | a callable is callable from a template exactly when it carries the `evtemplate_safe` flag |
| TemplateCore.BoundHelpersAreCallable | evennia/contrib/collab/template/core.py:85-87 | `fetch`, `store` and `perm_check` are all callable from inside the sandbox |
| TemplateCore.Globals | evennia/contrib/collab/template/core.py:79-88 | the globals the caller passed survive except for the eight reserved names, which are set by `evtemplate` whatever the caller passed: `me`, `run_as`, `this` and `here`, `fetch` and `store` bound to `run_as`, `how` and `perm_check` |
| TemplateCore.EffectiveHere | evennia/contrib/collab/template/core.py:75-76 | `here` defaults to the observer's location |
| TemplateCore.EvTemplate | evennia/contrib/collab/template/core.py:67-78 | with no observer `ValueError`; with an observer but no `run_as` the raw string; with both but no `this` `ValueError`; no other exception escapes apart from the index error of the syntax-error listing |
| TemplateCore.RenderRunsAsRunAs | evennia/contrib/collab/template/core.py:79-91 | rendering depends on the renderer only through calls whose globals run as `run_as`, never as the observer |
| TemplateCore.Report | evennia/contrib/collab/template/core.py:91-113 | rendered text is returned as is; a syntax error with source gives the syntax-error report and one without source the "Error on unknown line" text; a missing include gives the fixed include-error text; any other exception gives the execution-error text; the only exception that escapes is the listing's `IndexError` |
| TemplateCore.SyntaxErrorReport | evennia/contrib/collab/template/core.py:94-101 | the report fails with `IndexError` exactly when Jinja's line number lies past the last source line, and otherwise always ends with the error text |
| TemplateCore.HighlightIndex | evennia/contrib/collab/template/core.py:96 | the highlighted line is line `n` for `1 <= n <= count`, the last line for line number 0 (Python's index -1), and none (an `IndexError`) exactly beyond the last line |
| TemplateCore.ReportEntries | evennia/contrib/collab/template/core.py:95-97 | the listing has one numbered entry per source line with only the chosen line highlighted, followed by the error text |
| TemplateCore.ReportCoversSource | evennia/contrib/collab/template/core.py:92-101 | for a nonempty source, a line number beyond the last line raises `IndexError`, and for line `1..n` the report is the numbered listing of every source line, in order, with line `n` highlighted and the error text last |
| TemplateCore.FormatSyntaxError | evennia/contrib/collab/template/core.py:94-101 | the listing loop and the highlight produce exactly the specified syntax error report |
| TemplateCore.ExecutionError | evennia/contrib/collab/template/core.py:105-113 | the line is named only when the innermost frame is the template's; the message carries the exception's class name and text |
| TemplateCore.DeniedFetchReported | evennia/contrib/collab/template/tests.py:102-113 | a template whose `fetch` is refused renders as "Error when executing template. SecurityError: <run_as> does not have read access to property '<p>' on <this>" |
| TemplateCore.DeniedMessage | evennia/contrib/collab/template/core.py:109-113 | a read refusal raised outside the template text is reported without a line number |
| Typeclasses.CollabBasePermitsOnlyName | evennia/contrib/collab/typeclasses.py:90 | inside a template, `name` is the only readable attribute of a collab object |
| Typeclasses.CollabBase.CheckProtected | evennia/contrib/collab/typeclasses.py:92-97 | the protection flag is the `protected` attribute of the `imh` tier, `None` when unset |
| Typeclasses.ProtectedUnforgeable | evennia/contrib/collab/typeclasses.py:92-97 | no write to another tier or key, including the publicly writable `pub` tier, changes the protection flag |
| Typeclasses.CollabBase.SetOwner | evennia/contrib/collab/typeclasses.py:103-105 | the owner setter changes the owner to the given value and nothing else |
| Typeclasses.CollabBase.CreateExitCmdset | evennia/contrib/collab/typeclasses.py:192-234 | an owned exit whose owner fails `open_exit` on the location (default: the exit's own location) yields nothing; otherwise one `ExitCmdSet` allowing duplicates with one command: the normalised key, the aliases, the locks, no auto-help, the destination, an empty-argument regex and the exit object; the priority as written: -30 when `wizdb.exit_priority` is set, `None` when it is not |
| Typeclasses.CollabBase.CreateExitCmdsetIntended | evennia/contrib/collab/typeclasses.py:226-230 | the corrected exit command set: present exactly when the as-written one is, identical to it apart from the priority, which is the override when set and -30 otherwise; the two are equal only for an override of -30 |
| Typeclasses.ExitPriorityAsWritten | evennia/contrib/collab/typeclasses.py:226-230 | as written, a set `exit_priority` yields the class default -30 and an unset one yields `None` |
| Typeclasses.ExitPriorityIntended | evennia/contrib/collab/typeclasses.py:226-230 | the evidently intended selection: the override when set, the class default otherwise |
| Typeclasses.PriorityInverted | evennia/contrib/collab/typeclasses.py:226-230 | the two selections agree only on an override of exactly -30, and an unset override gives no priority at all |
| Typeclasses.CollabBase.ListContents | evennia/contrib/collab/typeclasses.py:118-128 | the loop collects, in contents order, the display names of the visible entries with a destination, of those with a player (wrapped in `{c..{n`), and of the rest |
| Typeclasses.Assemble | evennia/contrib/collab/typeclasses.py:130-137 | the string building appends the description only when nonempty, the `Exits:` line only with exits, and the `You see:` line only with users or things, users first |
| Typeclasses.CollabBase.ReturnAppearance | evennia/contrib/collab/typeclasses.py:107-138 | the method returns the specified appearance: nothing for no looker; otherwise the header, the description rendered as the owner, and the lines |
| Typeclasses.Appearance | evennia/contrib/collab/typeclasses.py:115-116 | the result is nothing exactly when there is no looker |
| Typeclasses.MembersExactly | evennia/contrib/collab/typeclasses.py:118-128 | an entry is listed in a group exactly when it is among the contents, is not the looker, passes `view` for the looker, and belongs to the group |
| Typeclasses.GroupsPartitionVisible | evennia/contrib/collab/typeclasses.py:121-128 | exits, users and things partition the visible entries: each visible entry is listed exactly once, as often as it occurs |
| Typeclasses.LinesPresentIff | evennia/contrib/collab/typeclasses.py:134-137 | the `Exits:` line is present exactly when some visible entry has a destination, and the `You see:` line exactly when some visible entry has none |
| Typeclasses.AppearanceStartsWithHeader | evennia/contrib/collab/typeclasses.py:130 | a successful appearance always starts with the `{c<name>{n` header line |
| Typeclasses.EmptyRoomShowsHeaderOnly | evennia/contrib/collab/typeclasses.py:130-138 | an entity with an empty description and nothing visible shows the header line alone, whether unowned (the raw empty string) or owned (given that the renderer renders the empty template as empty text) |
| Typeclasses.DescRunsAsOwner | evennia/contrib/collab/typeclasses.py:131 | the description runs with the owner's authority: the appearance depends on the renderer only through calls that run as the owner |
| Typeclasses.ContributionsExactly | evennia/contrib/collab/typeclasses.py:251-254 | a command set is in the zone set exactly when some tagged, eligible exit, built for this room, yields it |
| Typeclasses.GatherExits | evennia/contrib/collab/typeclasses.py:243-250 | the first loop collects the exits under each zone tag, in tag order |
| Typeclasses.BuildParts | evennia/contrib/collab/typeclasses.py:251-254 | the second loop adds exactly the contributions of the gathered exits, in order |
| Typeclasses.CollabRoom.ZoneExitCommandset | evennia/contrib/collab/typeclasses.py:239-255 | the result is the room's specified zone command set, owned by the room, and empty when the room has no zone tags |
| Typeclasses.CollabRoom.AtCmdsetGet | evennia/contrib/collab/typeclasses.py:262-265 | with no cache it builds the zone set once, caches it and adds it to the handler; with a cache it changes nothing; a cached set is always in the handler |
| Typeclasses.CollabRoom.ResetZoneCmdset | evennia/contrib/collab/typeclasses.py:257-260 | a cached set is removed from the handler and the cache cleared; with no cache nothing changes |
| Typeclasses.CollabRoom.ResolveTwice | evennia/contrib/collab/typeclasses.py:262-265 | two lookups without a reset build at most once and see the same command set |
| Typeclasses.CollabRoom.ResetThenResolve | evennia/contrib/collab/typeclasses.py:257-265 | after a reset the next lookup rebuilds from the current tag index |
| Typeclasses.Without | evennia/contrib/collab/typeclasses.py:259 | removing a command set from the handler drops every registration of it and keeps everything else |

## Left out

- The Jinja2 engine (parsing, the sandbox's interception of attribute reads
  and calls, `DebugUndefined`, the expression loader) is a parameter. The
  model states its allow rules as functions and the renderer's outcome as a
  value. `ENV`'s lazy initialisation and the `logger.info` call are not modelled.
- `PronounsExtension` (the `{% pro %}` tag) and `GENDER_PRONOUN_MAP` are not
  part of this model. The pronoun map is a parameter of `GetGenderMap`.
- The permission predicates are parameters, because `perms.py` is not part of this model:
  - `prefix_check`, `attr_check` and `collab_check`;
  - `get_owner` and `set_owner` (the owner is a field of the entity);
  - the `view` lock.
- Display names, `repr`, `ansi.raw`, `make_iter`, the tag index
  (`search_object_by_tag`) and the tag lookup of a room are parameters or
  inputs. Evennia's `CmdSet` and `CmdSetHandler` are values: the attributes
  set here and the list of added sets. A command set's truthiness is taken to
  be its presence. `cmdset.add(None)` for a refused exit is taken to add nothing.
- Only the collab typeclasses are modelled. A plain `DefaultExit`, which also
  has `create_exit_cmdset`, is not part of this model: `Eligible` admits
  collab exits only.
- Extensions.BoundCall: only the `run_as` clash is modelled. The other argument-binding `TypeError`s Python raises when calling `getter(run_as, target, prop_name)` or `setter(..., prop_val)` are not: a keyword repeating a positional argument, or the wrong number of arguments. The signatures beyond `run_as` are not part of the call model.
- JSON serialisability is a structural predicate on attribute values. Tuples,
  non-string dictionary keys and floats are not modelled, so the
  `json.loads(json.dumps(v))` copy is the identity on the values modelled.
- `Strings.Lower` lowercases ASCII letters only, and `Strings.IsSpace` is
  Python's default whitespace set.
- Extensions.GetGenderMap: a non-string stored gender is modelled as
  `AttributeError` from `.lower()`, including objects that might define `lower`.
- Typeclasses.CollabBase.CheckProtected: reading through `imhdb` also builds
  and memoises the holder; that side effect is shown by
  `NamespaceSet.Db` and not repeated here.
- Typeclasses.CollabRoom.AtCmdsetGet: `**kwargs` are ignored, as in the source.
- Typeclasses.CollabBase.SetOwner: `set_owner`'s own bookkeeping lives in
  `perms.py` and is not modelled.
- The attribute writes a template performs through `store` while rendering
  are not connected back to the entity's stores: the renderer is a pure
  parameter, and `Setter` models the write itself.
- The traceback is data: `Failed` carries the innermost frame's file name and
  line, rather than being derived from `sys.exc_info()`.

## Findings

| source | as written | input that shows it | evidently intended | confidence | as-written member | corrected member |
|---|---|---|---|---|---|---|
| evennia/contrib/collab/typeclasses.py:158-161 | the generated property setter is declared `setter(self)`, so Python calls it with two arguments and raises `TypeError` before the labelled message is built | `obj.wizdb = 1` | raise `Exception("Cannot assign directly to wizdb object! Use wizdb.attr=value instead.")` | not executed | Namespaces.AssignDb | Namespaces.AssignDbIntended |
| evennia/contrib/collab/typeclasses.py:226-230 | the `is not None` test on the `exit_priority` override picks the class default when the override is set and the unset override otherwise | `wizdb.exit_priority = 5` gives -30; an unset `exit_priority` gives `None` | use the override when it is set, else the class default -30 | not executed | Typeclasses.ExitPriorityAsWritten | Typeclasses.CollabBase.CreateExitCmdsetIntended |
