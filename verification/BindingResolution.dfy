/** Parsing binding expressions and resolving them against what the scheduler knows. */
module BindingResolution {
  import opened Orders
  import opened Bindings

  datatype Reference = Reference(namespace: string, name: string, argument: Option<string>)

  datatype Kind =
    | Literal
    | Field(scope: string, field: string)
    | WikiPage(slug: string, handle: string)
    | ConceptsDir
    | Scratch
    | Artifact(name: string, argument: string)
    | ArtifactCollection(name: string, argument: string)
    | List(items: seq<Expression>)

  datatype Expression = Expression(raw: string, kind: Kind, references: seq<Reference>)

  function WikiPageHandle(raw: string): (r: Option<(string, string)>) {
    var rest := StripPrefix(raw, "wiki.page(");
    if rest.None? then None
    else
      var close := Find(rest.value, ')', 0);
      if close.None? then None
      else
        var slug := StripQuotes(Trim(rest.value[..close.value]));
        var tail := StripPrefix(rest.value[close.value + 1..], ".");
        if tail.None? then None
        else
          var suffix := Trim(tail.value);
          if slug == "" || !IsIdentifierish(suffix) then None else Some((slug, suffix))
  }

  function NamespaceCall(raw: string, prefix: string): (r: Option<(string, string)>)
    ensures r.Some? ==> |r.value.1| < |raw| && r.value.1 != ""
  {
    var rest := StripPrefix(raw, prefix);
    if rest.None? then None
    else
      var open, close := Find(rest.value, '(', 0), FindLast(rest.value, ')', |rest.value|);
      if open.None? || close.None? || close.value <= open.value || close.value + 1 != |rest.value| then None
      else
        var name, argument := Trim(rest.value[..open.value]), Trim(rest.value[open.value + 1..close.value]);
        if name == "" || argument == "" || !IsIdentifierish(name) then None else Some((name, argument))
  }

  function FieldAccess(raw: string): (r: Option<(string, string)>) {
    var dot := Find(raw, '.', 0);
    if dot.None? then None
    else
      var scope, field := raw[..dot.value], raw[dot.value + 1..];
      if IsIdentifierish(scope) && IsIdentifierish(field) then Some((scope, field)) else None
  }

  /** A text that is not a list. */
  function Atom(raw: string): (e: Expression)
    ensures e.raw == raw && !e.kind.List? && |e.references| <= 1
    ensures e.kind.Artifact? ==> |e.kind.argument| < |raw|
    ensures e.kind.ArtifactCollection? ==> |e.kind.argument| < |raw|
  {
    var page := WikiPageHandle(raw);
    var artifact, collection := NamespaceCall(raw, "artifact."), NamespaceCall(raw, "artifacts.");
    var access := FieldAccess(raw);
    if page.Some? then
      Expression(raw, WikiPage(page.value.0, page.value.1), [Reference("wiki.page", page.value.1, Some(page.value.0))])
    else if raw == "wiki.concepts.dir" then Expression(raw, ConceptsDir, [Reference("wiki.concepts", "dir", None)])
    else if raw == "context_engine.scratch"
      then Expression(raw, Scratch, [Reference("context_engine", "scratch", None)])
    else if artifact.Some? then
      Expression(raw, Artifact(artifact.value.0, artifact.value.1),
        [Reference("artifact", artifact.value.0, Some(artifact.value.1))])
    else if collection.Some? then
      Expression(raw, ArtifactCollection(collection.value.0, collection.value.1),
                 [Reference("artifacts", collection.value.0, Some(collection.value.1))])
    else if access.Some? then Expression(raw, Field(access.value.0, access.value.1),
      [Reference(access.value.0, access.value.1, None)])
    else Expression(raw, Literal, [])
  }

  function ReferencesOf(items: seq<Expression>): (r: seq<Reference>) {
    if items == [] then [] else ReferencesOf(items[..|items| - 1]) + items[|items| - 1].references
  }

  lemma {:induction false} PiecesShort(s: string, k: nat, i: nat)
    requires k <= |s| && i < |Pieces(s, k)|
    ensures |Pieces(s, k)[i]| + |Pieces(s, k)| - 1 <= k
  {
    if k > 0 {
      var before := Pieces(s, k - 1);
      PiecesShort(s, k - 1, if i < |before| then i else 0);
    }
  }

  lemma {:induction false} PartOfPiece(pieces: seq<string>, n: nat, i: nat)
    requires n <= |pieces| && i < |NonEmptyParts(pieces, n)|
    ensures |NonEmptyParts(pieces, n)| <= n
    ensures exists j | 0 <= j < n :: |NonEmptyParts(pieces, n)[i]| <= |pieces[j]|
  {
    hide Trim;
    var before := NonEmptyParts(pieces, n - 1);
    if i < |before| {
      PartOfPiece(pieces, n - 1, i);
    } else if before != [] {
      PartOfPiece(pieces, n - 1, 0);
    }
  }

  /** When there is more than one part, each is shorter than the text. */
  lemma {:induction false} PartsShort(s: string, i: nat)
    requires i < |Split(s)| && |Split(s)| > 1
    ensures |Split(s)[i]| < |s|
  {
    hide Pieces, NonEmptyParts;
    var pieces := Pieces(s, |s|);
    PartOfPiece(pieces, |pieces|, i);
    var j: nat :| j < |pieces| && |NonEmptyParts(pieces, |pieces|)[i]| <= |pieces[j]|;
    PiecesShort(s, |s|, j);
  }

  function Parse(text: string): (e: Expression)
    ensures e.raw == Trim(text)
    decreases |text|
  {
    var raw := Trim(text);
    var parts := Split(raw);
    if |parts| > 1 then
      var items := seq(|parts|, i requires 0 <= i < |parts| => PartsShort(raw, i); Parse(parts[i]));
      Expression(raw, List(items), ReferencesOf(items))
    else Atom(raw)
  }

  /** Lists are flat: the items of a list are the atoms its parts spell, in order. */
  lemma {:induction false} ListsAreFlat(text: string)
    requires Parse(text).kind.List?
    ensures var parts, items := Split(Trim(text)), Parse(text).kind.items;
      && |items| == |parts| >= 2
      && forall i | 0 <= i < |items| :: items[i] == Atom(parts[i]) && items[i] == Parse(items[i].raw)
  {
    hide Split, Atom, Trim;
    var raw := Trim(text);
    var parts := Split(raw);
    forall i | 0 <= i < |parts| ensures Parse(parts[i]) == Atom(parts[i]) && Trim(parts[i]) == parts[i] {
      SplitIsGood(raw);
      PartsDoNotSplit(raw, i);
      ParseAtom(parts[i]);
    }
  }

  lemma {:induction false} ParseAtom(part: string)
    requires Trim(part) == part && |Split(part)| <= 1
    ensures Parse(part) == Atom(part)
  {
    hide Split, Atom, Trim;
  }

  // ----- resolving

  datatype Value = Scalar(text: string) | Values(texts: seq<string>)

  /** `RuntimeRequired` names the expressions that wait for runtime state. */
  datatype Resolution = Resolved(value: Value) | RuntimeRequired(needs: seq<string>) | Unsupported(culprit: string)

  /** What the scheduler can look up; `None` where the runtime must supply it. */
  datatype Context = Context(field: (string, string) -> Option<string>, page: (string, string) -> Option<string>,
                             conceptsDir: string, scratch: string, artifactPath: (string, string, bool) -> string)

  function Looked(raw: string, found: Option<string>): Resolution {
    match found
    case Some(text) => Resolved(Scalar(text))
    case None => RuntimeRequired([raw])
  }

  /** The running result of a list: its values so far and what is still needed. */
  datatype Gathered = Gathered(values: seq<string>, needs: seq<string>)

  function Gather(g: Gathered, r: Resolution): Gathered
    requires !r.Unsupported?
  {
    match r
    case Resolved(Scalar(text)) => Gathered(g.values + [text], g.needs)
    case Resolved(Values(texts)) => Gathered(g.values + texts, g.needs)
    case RuntimeRequired(needs) => Gathered(g.values, g.needs + needs)
  }

  /** A list stops at the first unsupported item. */
  function GatherAll(results: seq<Resolution>, n: nat): (r: Result<Gathered, string>)
    requires n <= |results|
  {
    if n == 0 then Ok(Gathered([], []))
    else
      var before := GatherAll(results, n - 1);
      if before.Err? then before
      else if results[n - 1].Unsupported? then Err(results[n - 1].culprit)
      else Ok(Gather(before.value, results[n - 1]))
  }

  function ListResolution(results: seq<Resolution>): (r: Resolution) {
    match GatherAll(results, |results|)
    case Err(culprit) => Unsupported(culprit)
    case Ok(g) => if g.needs == [] then Resolved(Values(g.values)) else RuntimeRequired(g.needs)
  }

  /** Resolves a parsed expression. */
  function Resolve(text: string, context: Context): (r: Resolution)
    decreases |text|, 1
  {
    var e := Parse(text);
    match e.kind
    case Literal => Resolved(Scalar(e.raw))
    case Field(scope, field) => Looked(e.raw, context.field(scope, field))
    case WikiPage(slug, handle) => Looked(e.raw, context.page(slug, handle))
    case ConceptsDir => Resolved(Scalar(context.conceptsDir))
    case Scratch => Resolved(Scalar(context.scratch))
    case Artifact(name, argument) => ArtifactShort(text); ResolveArtifact(name, argument, false, context)
    case ArtifactCollection(name, argument) => ArtifactShort(text); ResolveArtifact(name, argument, true, context)
    case List(items) =>
      var parts := Split(Trim(text));
      ListResolution(seq(|parts|, i requires 0 <= i < |parts| =>
        PartsShort(Trim(text), i); SplitMany(text); Resolve(parts[i], context)))
  }

  lemma {:induction false} SplitMany(text: string)
    requires Parse(text).kind.List?
    ensures |Split(Trim(text))| > 1
  {
    hide Split, Atom, Trim;
  }

  lemma {:induction false} ArtifactShort(text: string)
    ensures Parse(text).kind.Artifact? ==> |Parse(text).kind.argument| < |text|
    ensures Parse(text).kind.ArtifactCollection? ==> |Parse(text).kind.argument| < |text|
  {
    hide Split, Atom, Trim;
  }

  function ResolveArtifact(name: string, argument: string, collection: bool, context: Context): (r: Resolution)
    decreases |argument|, 2
  {
    var trimmed := Trim(argument);
    var stripped := StripQuotes(trimmed);
    if stripped != trimmed then Resolved(Scalar(context.artifactPath(name, stripped, collection)))
    else
      match Resolve(stripped, context)
      case Resolved(Scalar(text)) => Resolved(Scalar(context.artifactPath(name, text, collection)))
      case Resolved(Values(_)) => Unsupported(argument)
      case RuntimeRequired(needs) => RuntimeRequired(needs)
      case Unsupported(_) => Unsupported(argument)
  }

  function Resolutions(parts: seq<string>, context: Context): (results: seq<Resolution>)
    ensures |results| == |parts| && forall i | 0 <= i < |parts| :: results[i] == Resolve(parts[i], context)
  {
    seq(|parts|, i requires 0 <= i < |parts| => Resolve(parts[i], context))
  }

  method ResolveList(parts: seq<string>, context: Context) returns (r: Resolution)
    ensures r == ListResolution(Resolutions(parts, context))
  {
    hide Resolve;
    ghost var results := Resolutions(parts, context);
    var values: seq<string>, needs: seq<string> := [], [];
    for i := 0 to |parts|
      invariant GatherAll(results, i) == Ok(Gathered(values, needs))
    {
      match Resolve(parts[i], context)
      case Resolved(Scalar(text)) => values := values + [text];
      case Resolved(Values(texts)) => values := values + texts;
      case RuntimeRequired(more) => needs := needs + more;
      case Unsupported(culprit) =>
        GatherStops(results, i + 1, |parts|);
        return Unsupported(culprit);
    }
    r := if needs == [] then Resolved(Values(values)) else RuntimeRequired(needs);
  }

  lemma {:induction false} GatherStops(results: seq<Resolution>, i: nat, n: nat)
    requires i <= n <= |results| && GatherAll(results, i).Err?
    ensures GatherAll(results, n) == GatherAll(results, i)
  {
    if i < n {
      GatherStops(results, i, n - 1);
    }
  }

  // ----- what resolving a list means

  /** Anything but a list resolves to one text, if it resolves. */
  lemma {:induction false} AtomsAreScalar(text: string, context: Context)
    requires !Parse(text).kind.List? && Resolve(text, context).Resolved?
    ensures Resolve(text, context).value.Scalar?
  {
    hide Parse;
  }

  /** A missing value is always named. */
  lemma {:induction false} NeedsAreNamed(text: string, context: Context)
    ensures Resolve(text, context).RuntimeRequired? ==> Resolve(text, context).needs != []
    decreases |text|
  {
    ArtifactShort(text);
    var e := Parse(text);
    hide Parse, Trim, Split;
    if e.kind.Artifact? || e.kind.ArtifactCollection? {
      NeedsAreNamed(StripQuotes(Trim(e.kind.argument)), context);
    }
  }

  ghost predicate AllScalar(results: seq<Resolution>, values: seq<string>) {
    |values| == |results| && forall i | 0 <= i < |results| :: results[i] == Resolved(Scalar(values[i]))
  }

  /** No item is itself a list, and every item that needs something says what. */
  ghost predicate ItemResults(results: seq<Resolution>) {
    forall i | 0 <= i < |results| ::
      && (results[i].Resolved? ==> results[i].value.Scalar?)
      && (results[i].RuntimeRequired? ==> results[i].needs != [])
  }

  lemma {:induction false} GatherIs(results: seq<Resolution>, n: nat)
    requires n <= |results| && ItemResults(results)
    ensures GatherAll(results, n).Err? <==> exists i | 0 <= i < n :: results[i].Unsupported?
    ensures GatherAll(results, n).Ok? ==>
              var g := GatherAll(results, n).value;
              && (g.needs == [] <==> forall i | 0 <= i < n :: results[i].Resolved?)
              && (g.needs == [] ==> AllScalar(results[..n], g.values))
  {
    if n > 0 {
      GatherIs(results, n - 1);
      assert results[..n] == results[..n - 1] + [results[n - 1]];
    }
  }

  lemma {:induction false} PartResults(text: string, context: Context)
    requires Parse(text).kind.List?
    ensures ItemResults(Resolutions(Split(Trim(text)), context))
  {
    hide Resolve, Split, Trim, Parse, Atom;
    var parts := Split(Trim(text));
    ListsAreFlat(text);
    forall i | 0 <= i < |parts|
      ensures var r := Resolve(parts[i], context);
        (r.Resolved? ==> r.value.Scalar?) && (r.RuntimeRequired? ==> r.needs != [])
    {
      assert Parse(text).kind.items[i] == Atom(parts[i]);
      if Resolve(parts[i], context).Resolved? {
        AtomsAreScalar(parts[i], context);
      }
      NeedsAreNamed(parts[i], context);
    }
  }

  lemma {:induction false} ListResolves(text: string, context: Context)
    requires Parse(text).kind.List?
    ensures Resolve(text, context) == ListResolution(Resolutions(Split(Trim(text)), context))
  {
    hide Split, Trim, Parse, ListResolution;
    var parts := Split(Trim(text));
    SplitMany(text);
    assert seq(|parts|, i requires 0 <= i < |parts| =>
             PartsShort(Trim(text), i); SplitMany(text); Resolve(parts[i], context))
        == Resolutions(parts, context);
  }

  /** A list is unsupported exactly when one of its parts is; otherwise it waits exactly when one of
      its parts does; otherwise it has one value a part, in the order of the parts. */
  lemma {:induction false} ListOutcome(text: string, context: Context)
    requires Parse(text).kind.List?
    ensures var results, r := Resolutions(Split(Trim(text)), context), Resolve(text, context);
      && (r.Unsupported? <==> exists i | 0 <= i < |results| :: results[i].Unsupported?)
      && (r.Resolved? <==> forall i | 0 <= i < |results| :: results[i].Resolved?)
      && (r.Resolved? ==> r.value.Values? && AllScalar(results, r.value.texts))
  {
    hide Split, Trim, Parse, Resolve, Resolutions, AllScalar;
    var results := Resolutions(Split(Trim(text)), context);
    ListResolves(text, context);
    PartResults(text, context);
    GatherIs(results, |results|);
    assert results[..|results|] == results;
  }
}
