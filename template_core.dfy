/** The sandboxed template entry point (template/core.py): the sandbox's
    allow-rules, the argument guards of `evtemplate`, the globals it hands
    to Jinja, and how it turns Jinja's failures into text. Jinja itself is
    the abstract `Renderer`. */
module TemplateCore {
  import opened Common
  import opened Extensions
  import Strings

  /** `is_safe_attribute(obj, attr, value)`, where `templatePermitted` is
      the object's `template_permitted` (`None` when it has none). */
  function IsSafeAttribute(templatePermitted: Option<seq<string>>, attr: string): (ok: bool)
    ensures ok <==> templatePermitted.Some? && attr in templatePermitted.value
  {
    match templatePermitted
    case None => false
    case Some(names) => attr in names
  }

  /** `is_safe_callable(obj)`: the object's `evtemplate_safe`, false when absent. */
  function IsSafeCallable(c: Callable): (ok: bool)
  {
    c.evtemplateSafe
  }

  /** Everything `evtemplate` puts into the globals is callable from a
      template; an unmarked function is not. */
  lemma BoundHelpersAreCallable(runAs: Ref, f: Builtin)
    ensures IsSafeCallable(PermBind(GetterFn, runAs)) && IsSafeCallable(PermBind(SetterFn, runAs))
    ensures IsSafeCallable(PermCheck)
    ensures !IsSafeCallable(Callable(f, None, false))
    ensures forall c: Callable :: IsSafeCallable(Safe(c))
  {
  }

  /** The observer (`me`): who views the result, and where they are. */
  datatype Observer = Observer(ref: Ref, location: Option<Ref>)

  /** How Jinja's rendering of a template ended. `SyntaxError` is a
      `TemplateSyntaxError` with its `source` (empty when Jinja has none),
      `lineno` and `str(e)`; `NotFound` is `TemplatesNotFound`; `Failed` is
      any other exception together with the file and line of the innermost
      traceback frame. */
  datatype RenderOutcome =
    | Rendered(text: string)
    | SyntaxError(source: string, lineno: nat, text: string)
    | NotFound
    | Failed(frameFile: string, frameLine: nat, exc: Exc)

  /** `ENV.from_string(string, globals=kwargs).render(**context)`. */
  type Renderer = (string, map<string, Global>, map<string, Global>) -> RenderOutcome

  const NoObserver := "You cannot render a template without an observer."
  const NoThis := "Templates must have a 'this' to render for."

  const ReservedNames: set<string> := {"me", "run_as", "this", "here", "how", "perm_check", "fetch", "store"}

  function OptEntity(r: Option<Ref>): Global
  {
    match r
    case None => GNone
    case Some(x) => GEntity(x)
  }

  function OptText(t: Option<string>): Global
  {
    match t
    case None => GNone
    case Some(x) => GText(x)
  }

  /** The globals a template runs with once every guard has passed. */
  predicate RunsWith(g: map<string, Global>, me: Observer, runAs: Ref, subject: Ref, here: Option<Ref>)
  {
    && "me" in g && g["me"] == GEntity(me.ref)
    && "run_as" in g && g["run_as"] == GEntity(runAs)
    && "this" in g && g["this"] == GEntity(subject)
    && "here" in g && g["here"] == OptEntity(here)
    && "fetch" in g && g["fetch"] == GCallable(PermBind(GetterFn, runAs))
    && "store" in g && g["store"] == GCallable(PermBind(SetterFn, runAs))
  }

  /** `kwargs.update({...})`: the caller's extra keyword arguments, with the
      eight reserved names set by `evtemplate` whatever the caller passed. */
  function Globals(kwargs: map<string, Global>, me: Observer, runAs: Ref, subject: Ref, here: Option<Ref>, how: Option<string>)
    : (g: map<string, Global>)
    ensures g.Keys == kwargs.Keys + ReservedNames
    ensures forall k :: k in kwargs && k !in ReservedNames ==> g[k] == kwargs[k]
    ensures RunsWith(g, me, runAs, subject, here)
    ensures g["how"] == OptText(how) && g["perm_check"] == GCallable(PermCheck)
  {
    kwargs["me" := GEntity(me.ref)]["run_as" := GEntity(runAs)]["this" := GEntity(subject)]
          ["here" := OptEntity(here)]["how" := OptText(how)]["perm_check" := GCallable(PermCheck)]
          ["fetch" := GCallable(PermBind(GetterFn, runAs))]["store" := GCallable(PermBind(SetterFn, runAs))]
  }

  /** Where the template runs: the given `here`, else the observer's location. */
  function EffectiveHere(here: Option<Ref>, me: Observer): (h: Option<Ref>)
    ensures here.Some? ==> h == here
    ensures here.None? ==> h == me.location
  {
    if here.Some? then here else me.location
  }

  /** `evtemplate(string, run_as, me, this, how, here, context, **kwargs)`; `subject` is `this`. */
  function EvTemplate(s: string, runAs: Option<Ref>, me: Option<Observer>, subject: Option<Ref>, how: Option<string>,
                      here: Option<Ref>, context: map<string, Global>, kwargs: map<string, Global>,
                      render: Renderer, raw: string -> string): (r: Result<string>)
    ensures me.None? ==> r == Err(ValueError(NoObserver))
    ensures me.Some? && runAs.None? ==> r == Ok(s)
    ensures me.Some? && runAs.Some? && subject.None? ==> r == Err(ValueError(NoThis))
    ensures r.Err? ==> r.exc.typeName in {"ValueError", "IndexError"}
  {
    if me.None? then Err(ValueError(NoObserver))
    else if runAs.None? then Ok(s)
    else
      var here' := EffectiveHere(here, me.value);
      if subject.None? then Err(ValueError(NoThis))
      else
        var g := Globals(kwargs, me.value, runAs.value, subject.value, here', how);
        Report(render(s, g, context), raw)
  }

  /** Rendering depends on the renderer only where it is called with globals
      that run as `run_as` (never as the observer), with `fetch` and `store`
      bound to `run_as`, and with `here` defaulting to the observer's location. */
  lemma {:induction false} RenderRunsAsRunAs(s: string, runAs: Ref, me: Observer, subject: Option<Ref>, how: Option<string>,
                                             here: Option<Ref>, context: map<string, Global>, kwargs: map<string, Global>,
                                             r1: Renderer, r2: Renderer, raw: string -> string)
    requires forall src, g, c :: subject.Some? && RunsWith(g, me, runAs, subject.value, EffectiveHere(here, me)) ==>
               r1(src, g, c) == r2(src, g, c)
    ensures EvTemplate(s, Some(runAs), Some(me), subject, how, here, context, kwargs, r1, raw)
         == EvTemplate(s, Some(runAs), Some(me), subject, how, here, context, kwargs, r2, raw)
  {
    if subject.Some? {
      var g := Globals(kwargs, me, runAs, subject.value, EffectiveHere(here, me), how);
      assert r1(s, g, context) == r2(s, g, context);
    }
  }

  /** The text `evtemplate` returns for each way rendering can end. */
  function Report(o: RenderOutcome, raw: string -> string): (r: Result<string>)
    ensures r.Err? ==> o.SyntaxError? && r.exc.typeName == "IndexError"
    ensures o.Rendered? ==> r == Ok(o.text)
    ensures o.SyntaxError? && o.source != "" ==> r == SyntaxErrorReport(o.source, o.lineno, o.text, raw)
    ensures o.SyntaxError? && o.source == "" ==>
              r == Ok("Error on unknown line (possibly caused by an included template): " + o.text)
    ensures o.NotFound? ==>
              r == Ok("Include error: Attempted to include a null value. Check to make sure your "
                      + "include statement contains a template string.")
    ensures o.Failed? ==> r == Ok(ExecutionError(o.frameFile, o.frameLine, o.exc))
  {
    match o
    case Rendered(text) => Ok(text)
    case SyntaxError(source, lineno, text) =>
      if source != "" then SyntaxErrorReport(source, lineno, text, raw)
      else Ok("Error on unknown line (possibly caused by an included template): " + text)
    case NotFound =>
      Ok("Include error: Attempted to include a null value. Check to make sure your "
         + "include statement contains a template string.")
    case Failed(file, line, exc) => Ok(ExecutionError(file, line, exc))
  }

  /** The line numbers of a listing: one entry per source line, numbered from 1. */
  function NumberedLine(i: nat, line: string, raw: string -> string): string
  {
    raw(Strings.NatToString(i + 1) + ":" + line)
  }

  /** The entry `source_lines[e.lineno - 1]` overwrites, with Python's
      negative indexing for `lineno == 0`; `None` when the index is out of
      range, where Python raises `IndexError`. */
  function HighlightIndex(count: nat, lineno: nat): (k: Option<nat>)
    requires count >= 1
    ensures k.Some? ==> k.value < count
    ensures 1 <= lineno <= count ==> k == Some(lineno - 1)
    ensures k.None? <==> lineno > count
    ensures lineno == 0 ==> k == Some(count - 1)
  {
    if lineno == 0 then Some(count - 1)
    else if lineno <= count then Some(lineno - 1)
    else None
  }

  function Highlighted(entry: string): string { "|r|h" + entry + "|n" }

  /** The entries of the syntax-error listing, before they are joined. */
  function ReportEntries(lines: seq<string>, k: nat, text: string, raw: string -> string): (e: seq<string>)
    requires k < |lines|
    ensures |e| == |lines| + 1 && e[|lines|] == text
    ensures forall i :: 0 <= i < |lines| && i != k ==> e[i] == NumberedLine(i, lines[i], raw)
    ensures e[k] == Highlighted(NumberedLine(k, lines[k], raw))
  {
    seq(|lines|, i requires 0 <= i < |lines| =>
          if i == k then Highlighted(NumberedLine(i, lines[i], raw)) else NumberedLine(i, lines[i], raw))
      + [text]
  }

  /** The syntax-error report: the source listed line by line with the
      faulty line highlighted, then the error text, one entry per line. */
  function SyntaxErrorReport(source: string, lineno: nat, text: string, raw: string -> string): (r: Result<string>)
    ensures r.Err? <==> lineno > |Strings.Split(source, '\n')|
    ensures r.Err? ==> r.exc == Exc("IndexError", "list index out of range")
    ensures r.Ok? ==> |text| <= |r.value| && r.value[|r.value| - |text|..] == text
  {
    var lines := Strings.Split(source, '\n');
    match HighlightIndex(|lines|, lineno)
    case None => Err(Exc("IndexError", "list index out of range"))
    case Some(k) =>
      var entries := ReportEntries(lines, k, text, raw);
      Strings.JoinEndsWithLast(entries, "\n");
      Ok(Strings.Join(entries, "\n"))
  }

  /** The listing numbers exactly the lines of the source: its lines joined
      again give the source back, and none of them holds a line break. The
      error line is highlighted whenever Jinja's line number lies in the
      source; a line number past the end makes the formatter itself raise. */
  lemma ReportCoversSource(source: string, lineno: nat, text: string, raw: string -> string)
    ensures Strings.Join(Strings.Split(source, '\n'), "\n") == source
    ensures forall i :: 0 <= i < |Strings.Split(source, '\n')| ==> '\n' !in Strings.Split(source, '\n')[i]
    ensures SyntaxErrorReport(source, lineno, text, raw).Err? <==> lineno > |Strings.Split(source, '\n')|
    ensures 1 <= lineno <= |Strings.Split(source, '\n')| ==>
              var lines := Strings.Split(source, '\n');
              SyntaxErrorReport(source, lineno, text, raw)
                == Ok(Strings.Join(ReportEntries(lines, lineno - 1, text, raw), "\n"))
  {
    Strings.JoinSplit(source, '\n');
  }

  /** The syntax-error branch as the source runs it: build the numbered
      lines, overwrite the faulty one, append the error, join. */
  method FormatSyntaxError(source: string, lineno: nat, text: string, raw: string -> string) returns (r: Result<string>)
    ensures r == SyntaxErrorReport(source, lineno, text, raw)
  {
    var lines := Strings.Split(source, '\n');
    var sourceLines: seq<string> := [];
    for i := 0 to |lines|
      invariant |sourceLines| == i
      invariant forall j :: 0 <= j < i ==> sourceLines[j] == NumberedLine(j, lines[j], raw)
    {
      sourceLines := sourceLines + [NumberedLine(i, lines[i], raw)];
    }
    var k := HighlightIndex(|lines|, lineno);
    if k.None? {
      return Err(Exc("IndexError", "list index out of range"));
    }
    sourceLines := sourceLines[k.value := Highlighted(sourceLines[k.value])];
    sourceLines := sourceLines + [text];
    assert sourceLines == ReportEntries(lines, k.value, text, raw);
    r := Ok(Strings.Join(sourceLines, "\n"));
  }

  /** The message for any other exception: the template's line is named only
      when the innermost traceback frame lies in the template itself. */
  function ExecutionError(frameFile: string, frameLine: nat, exc: Exc): (m: string)
    ensures frameFile == "<template>" ==>
              m == "Error when executing template on line " + Strings.NatToString(frameLine) + ". "
                   + exc.typeName + ": " + exc.message
    ensures frameFile != "<template>" ==>
              m == "Error when executing template. " + exc.typeName + ": " + exc.message
  {
    var extra := if frameFile == "<template>" then " on line " + Strings.NatToString(frameLine) else "";
    "Error when executing template" + extra + ". " + exc.typeName + ": " + exc.message
  }

  /** A `fetch` that `getter` refuses surfaces as the text of the refusal:
      the exception is raised in the extension code, so no template line is
      named (template/tests.py, the unpermissioned read). */
  lemma DeniedFetchReported(s: string, runAs: Ref, me: Observer, subject: Ref, kwargs: map<string, Global>,
                            stores: Namespaces.Stores, propName: string, sb: Sandbox,
                            render: Renderer, raw: string -> string, file: string, line: nat)
    requires !sb.attrCheck(runAs, subject, Read, sb.prefixCheck(subject, propName).1)
    requires file != "<template>"
    requires forall g :: RunsWith(g, me, runAs, subject, me.location) ==>
               render(s, g, map[]) == Failed(file, line, Getter(runAs, subject, stores, propName, sb).exc)
    ensures EvTemplate(s, Some(runAs), Some(me), Some(subject), None, None, map[], kwargs, render, raw)
         == Ok("Error when executing template. SecurityError: " + runAs.key
               + " does not have read access to property '" + propName + "' on " + subject.key)
  {
    var g := Globals(kwargs, me, runAs, subject, me.location, None);
    var exc := ReadDenied(runAs, propName, subject);
    assert Getter(runAs, subject, stores, propName, sb) == Err(exc);
    assert render(s, g, map[]) == Failed(file, line, exc);
    DeniedMessage(runAs, propName, subject, file, line);
  }

  /** The text `ExecutionError` gives a read refusal raised outside the template. */
  lemma DeniedMessage(runAs: Ref, propName: string, subject: Ref, file: string, line: nat)
    requires file != "<template>"
    ensures ExecutionError(file, line, ReadDenied(runAs, propName, subject))
         == "Error when executing template. SecurityError: " + runAs.key
            + " does not have read access to property '" + propName + "' on " + subject.key
  {
    var exc := ReadDenied(runAs, propName, subject);
    var prefix := "Error when executing template. SecurityError: ";
    assert "Error when executing template. " + exc.typeName + ": " == prefix;
    assert ExecutionError(file, line, exc) == prefix + exc.message;
    assert prefix + exc.message
        == prefix + runAs.key + " does not have read access to property '" + propName + "' on " + subject.key;
  }
}
