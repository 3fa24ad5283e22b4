/** The import form: shape check of decoded prompts, the input checks, and the all-or-nothing gate
    in front of the merge. Reading the file, fetching the URL and `JSON.parse` are one `load`
    parameter; constructing a WHATWG `URL` is the `parses` parameter. */
module ImportPrompts {
  import opened Wrappers
  import opened Json
  import opened Prompts
  import opened Merge

  datatype ImportMethod = File | Url

  /** The submitted form values: the picked file paths and the typed URL, either possibly absent. */
  datatype ImportValues = ImportValues(filePath: Option<seq<string>>, url: Option<string>)

  /** Where the prompts are read from once the form values pass. */
  datatype Source = LocalFile(path: string) | RemoteUrl(url: string)

  datatype ImportError =
    | NoFileSelected          // file mode without a picked file
    | MissingUrl              // URL mode with an empty URL
    | InvalidUrl              // URL mode with a URL that does not parse
    | LoadFailed(message: string)  // read, fetch, non-2xx status or JSON decoding failed
    | InvalidFormat           // not an array, or an element that is not prompt-shaped

  /** What the import hands to `onImport` and reports: the merged list, the count read, the counters. */
  datatype ImportReport = ImportReport(mergedPrompts: seq<Prompt>, imported: nat, stats: Stats)

  // ----- shape check -----

  /** `v.key` on a decoded value: a member of an object; arrays and scalars have no such member. */
  function Member(v: Json, key: string): Option<Json>
  {
    if v.Obj? && key in v.members then Some(v.members[key]) else None
  }

  predicate IsString(m: Option<Json>)
  {
    m.Some? && m.value.Str?
  }

  predicate IsBoolean(m: Option<Json>)
  {
    m.Some? && m.value.Bool?
  }

  /** `isValidPrompt`: `typeof v === "object" && v !== null` holds of objects and arrays alike; the
      member tests then settle it. The items of `tags` are not examined. */
  predicate IsValidPrompt(v: Json)
  {
    (v.Obj? || v.Arr?) &&
    IsString(Member(v, "id")) &&
    IsString(Member(v, "title")) &&
    IsString(Member(v, "content")) &&
    IsBoolean(Member(v, "enabled")) &&
    (Member(v, "tags").None? || Member(v, "tags").value.Arr?)
  }

  /** A value passes the shape check exactly when it is an object with string `id`, `title` and
      `content`, a boolean `enabled`, and `tags` absent or an array. */
  lemma ValidPromptShape(v: Json)
    ensures IsValidPrompt(v) <==>
      v.Obj? &&
      "id" in v.members && v.members["id"].Str? &&
      "title" in v.members && v.members["title"].Str? &&
      "content" in v.members && v.members["content"].Str? &&
      "enabled" in v.members && v.members["enabled"].Bool? &&
      ("tags" in v.members ==> v.members["tags"].Arr?)
  {
  }

  /** The prompt a value that passed the shape check stands for. */
  function Decode(v: Json): Prompt
    requires IsValidPrompt(v)
  {
    Prompt(
      Member(v, "id").value.s,
      Member(v, "title").value.s,
      Member(v, "content").value.s,
      match Member(v, "tags") { case Some(a) => Some(a.items) case None => None },
      Member(v, "enabled").value.b)
  }

  /** The object `JSON.stringify` writes for a prompt; an absent `tags` is left out. */
  function Encode(p: Prompt): Json
  {
    var fields := map["id" := Str(p.id), "title" := Str(p.title), "content" := Str(p.content),
                      "enabled" := Bool(p.enabled)];
    match p.tags
    case Some(ts) => Obj(fields["tags" := Arr(ts)])
    case None => Obj(fields)
  }

  /** Every exported prompt passes the shape check and decodes to itself. */
  lemma EncodeDecode(p: Prompt)
    ensures IsValidPrompt(Encode(p)) && Decode(Encode(p)) == p
  {
    assert "tags" !in map["id" := Str(p.id), "title" := Str(p.title), "content" := Str(p.content),
                          "enabled" := Bool(p.enabled)];
  }

  /** The array an export writes: every prompt of the whole collection, in order. */
  function Export(c: seq<Prompt>): (v: Json)
    ensures v.Arr? && |v.items| == |c|
  {
    Arr(seq(|c|, i requires 0 <= i < |c| => Encode(c[i])))
  }

  /** `Array.isArray(v) && v.every(isValidPrompt)`. */
  predicate AllValid(v: Json)
  {
    v.Arr? && forall i :: 0 <= i < |v.items| ==> IsValidPrompt(v.items[i])
  }

  function DecodeAll(v: Json): (ps: seq<Prompt>)
    requires AllValid(v)
    ensures |ps| == |v.items|
  {
    seq(|v.items|, i requires 0 <= i < |v.items| => Decode(v.items[i]))
  }

  /** An exported collection passes the gate and decodes to the same collection. */
  lemma ExportDecodes(c: seq<Prompt>)
    ensures AllValid(Export(c)) && DecodeAll(Export(c)) == c
  {
    var v := Export(c);
    forall i | 0 <= i < |c| ensures IsValidPrompt(v.items[i]) && Decode(v.items[i]) == c[i] {
      EncodeDecode(c[i]);
    }
  }

  // ----- form checks and the gate -----

  /** `validateUrl`. */
  function ValidateUrl(url: string, parses: string -> bool): bool
  {
    url != "" && parses(url)
  }

  /** The checks `handleImport` makes before any I/O, and the source it then reads. Only the first
      picked path is read. */
  function CheckSelection(importMethod: ImportMethod, values: ImportValues, parses: string -> bool): (r: Result<Source, ImportError>)
    ensures r == Err(NoFileSelected) <==>
      importMethod == File && (values.filePath.None? || |values.filePath.value| == 0)
    ensures r == Err(MissingUrl) <==>
      importMethod == Url && (values.url.None? || values.url.value == "")
    ensures r == Err(InvalidUrl) <==>
      importMethod == Url && values.url.Some? && values.url.value != "" && !parses(values.url.value)
    ensures r.Err? ==> r.error == NoFileSelected || r.error == MissingUrl || r.error == InvalidUrl
    ensures r.Ok? && importMethod == File ==> r.value == LocalFile(values.filePath.value[0])
    ensures r.Ok? && importMethod == Url ==> r.value == RemoteUrl(values.url.value)
  {
    match importMethod
    case File =>
      if values.filePath.None? || |values.filePath.value| == 0 then Err(NoFileSelected)
      else Ok(LocalFile(values.filePath.value[0]))
    case Url =>
      if values.url.None? || values.url.value == "" then Err(MissingUrl)
      else if !ValidateUrl(values.url.value, parses) then Err(InvalidUrl)
      else Ok(RemoteUrl(values.url.value))
  }

  /** `handleImport` without its I/O: either the merged list and counts, or one error and no list. */
  function HandleImport(importMethod: ImportMethod, values: ImportValues, parses: string -> bool,
                        load: Source -> Result<Json, string>, current: Option<seq<Prompt>>)
    : (r: Result<ImportReport, ImportError>)
    ensures r.Ok? <==>
      var selected := CheckSelection(importMethod, values, parses);
      selected.Ok? && load(selected.value).Ok? && AllValid(load(selected.value).value)
    ensures var selected := CheckSelection(importMethod, values, parses);
      selected.Err? ==> r == Err(selected.error)
    ensures var selected := CheckSelection(importMethod, values, parses);
      selected.Ok? && load(selected.value).Err? ==> r == Err(LoadFailed(load(selected.value).error))
    ensures var selected := CheckSelection(importMethod, values, parses);
      selected.Ok? && load(selected.value).Ok? && !AllValid(load(selected.value).value) ==> r == Err(InvalidFormat)
    ensures r.Ok? ==>
      var payload := load(CheckSelection(importMethod, values, parses).value).value;
      var merged := MergeAll(DecodeAll(payload), OrEmpty(current));
      r.value == ImportReport(merged.mergedPrompts, |payload.items|, merged.stats)
    ensures r.Ok? ==>
      r.value.stats.added + r.value.stats.updated == r.value.imported &&
      |r.value.mergedPrompts| == |OrEmpty(current)| + r.value.stats.added
    ensures r.Ok? && UniqueIds(OrEmpty(current)) ==> UniqueIds(r.value.mergedPrompts)
  {
    match CheckSelection(importMethod, values, parses)
    case Err(e) => Err(e)
    case Ok(source) =>
      match load(source)
      case Err(message) => Err(LoadFailed(message))
      case Ok(payload) =>
        if !AllValid(payload) then Err(InvalidFormat)
        else
          var imported := DecodeAll(payload);
          var merged := MergeAll(imported, OrEmpty(current));
          MergeShape(imported, OrEmpty(current));
          MergeKeepsUnique(imported, OrEmpty(current));
          Ok(ImportReport(merged.mergedPrompts, |imported|, merged.stats))
  }

  /** A rejected selection fails before anything is loaded: the result does not depend on `load`. */
  lemma SelectionBeforeLoad(importMethod: ImportMethod, values: ImportValues, parses: string -> bool,
                            load1: Source -> Result<Json, string>, load2: Source -> Result<Json, string>,
                            current: Option<seq<Prompt>>)
    requires CheckSelection(importMethod, values, parses).Err?
    ensures HandleImport(importMethod, values, parses, load1, current) ==
            HandleImport(importMethod, values, parses, load2, current) ==
            Err(CheckSelection(importMethod, values, parses).error)
  {
  }

  /** Importing an export of the current collection, when its ids are unique, reproduces it with
      no additions and every prompt updated. */
  lemma ReimportExport(c: seq<Prompt>, path: string, parses: string -> bool)
    requires UniqueIds(c)
    ensures HandleImport(File, ImportValues(Some([path]), None), parses, _ => Ok(Export(c)), Some(c)) ==
            Ok(ImportReport(c, |c|, Stats(0, |c|)))
  {
    ExportDecodes(c);
    MergeIntoItself(c);
  }
}
