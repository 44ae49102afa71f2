/** The pure parts of keeping an Eloquent model's `$table` property in step
    with a moved table: the default schema read from the connection's
    search_path, the decision between removing the property and setting it
    to `schema.table`, the model file's path, and the splice that inserts a
    new property line. Reading and writing the file, and the regular
    expressions that find the property or the insertion point, are not part
    of this model. */
module ModelFile {
  import opened Wrappers
  import opened Text

  /** The connection's `search_path` setting as configured: absent, a
      comma-separated string, an array of names, or a value of another type. */
  datatype SearchPath = Unset | PathString(text: string) | PathArray(entries: seq<string>) | OtherValue

  /** What each search_path entry is stripped of: whitespace and both quote marks. */
  const SchemaTrimChars: set<char> := Whitespace + {'"', '\''}

  /** An entry with nothing left to strip at either end. */
  predicate Clean(s: string) {
    s != [] ==> s[0] !in SchemaTrimChars && s[|s| - 1] !in SchemaTrimChars
  }

  /** The first truthy string of a list, if there is one. */
  function FirstTruthy(xs: seq<string>): (r: Option<string>)
    ensures r.None? <==> forall i :: 0 <= i < |xs| ==> !Truthy(xs[i])
    ensures r.Some? ==> r.value in xs
    ensures r.Some? ==> exists k :: 0 <= k < |xs| && xs[k] == r.value && Truthy(r.value)
                                    && forall j :: 0 <= j < k ==> !Truthy(xs[j])
    decreases |xs|
  {
    if xs == [] then None
    else if Truthy(xs[0]) then Some(xs[0])
    else
      var r := FirstTruthy(xs[1..]);
      assert forall j :: 1 <= j < |xs| ==> xs[j] == xs[1..][j - 1];
      r
  }

  /** `r` is the first truthy entry of `xs`, or none when every entry is falsy. */
  predicate IsFirstTruthy(xs: seq<string>, r: Option<string>) {
    match r
    case None => forall i :: 0 <= i < |xs| ==> !Truthy(xs[i])
    case Some(v) => exists k :: 0 <= k < |xs| && xs[k] == v && Truthy(v) && forall j :: 0 <= j < k ==> !Truthy(xs[j])
  }

  /** The default schema: the first search_path entry that is still truthy
      once trimmed of whitespace and quotes, or none. A string is split on
      ',' and trimmed of whitespace first; an array is taken as it is. */
  function GetDefaultSchema(sp: SearchPath): (r: Option<string>)
    ensures sp.Unset? || sp.OtherValue? ==> r.None?
    ensures sp.PathString? ==>
              IsFirstTruthy(TrimEach(TrimEach(Explode(sp.text, ','), Whitespace), SchemaTrimChars), r)
    ensures sp.PathArray? ==> IsFirstTruthy(TrimEach(sp.entries, SchemaTrimChars), r)
    ensures r.Some? ==> Truthy(r.value) && Clean(r.value)
  {
    match sp
    case Unset => None
    case OtherValue => None
    case PathString(s) =>
      var r := FirstTruthy(TrimEach(TrimEach(Explode(s, ','), Whitespace), SchemaTrimChars));
      CleanEntries(TrimEach(Explode(s, ','), Whitespace), r);
      r
    case PathArray(xs) =>
      var r := FirstTruthy(TrimEach(xs, SchemaTrimChars));
      CleanEntries(xs, r);
      r
  }

  lemma CleanEntries(xs: seq<string>, r: Option<string>)
    requires r == FirstTruthy(TrimEach(xs, SchemaTrimChars))
    ensures r.Some? ==> Clean(r.value)
  {
    var ys := TrimEach(xs, SchemaTrimChars);
    forall k | 0 <= k < |ys| ensures Clean(ys[k]) {
      TrimmedIsClean(xs[k]);
    }
  }

  /** Trimming the quote and whitespace characters leaves a clean name. */
  lemma TrimmedIsClean(s: string)
    ensures Clean(Trim(s, SchemaTrimChars))
  {
    TrimIsSlice(s, SchemaTrimChars);
  }

  /** Trimming entries that have nothing to strip leaves the list unchanged. */
  lemma TrimEachClean(xs: seq<string>, cs: set<char>)
    requires forall i :: 0 <= i < |xs| ==> xs[i] != [] ==> xs[i][0] !in cs && xs[i][|xs[i]| - 1] !in cs
    ensures TrimEach(xs, cs) == xs
  {
    forall i | 0 <= i < |xs| ensures Trim(xs[i], cs) == xs[i] {
      TrimClean(xs[i], cs);
    }
  }

  /** A search_path written as a comma-separated list of clean names, or
      given as an array of them, yields its first name. */
  lemma {:induction false} DefaultSchemaOfList(names: seq<string>)
    requires |names| >= 1
    requires forall i :: 0 <= i < |names| ==> Truthy(names[i]) && Clean(names[i]) && ',' !in names[i]
    ensures GetDefaultSchema(PathString(Implode(names, ","))) == Some(names[0])
    ensures GetDefaultSchema(PathArray(names)) == Some(names[0])
  {
    ExplodeImplode(names, ',');
    assert Explode(Implode(names, ","), ',') == names;
    assert Whitespace <= SchemaTrimChars;
    TrimEachClean(names, Whitespace);
    TrimEachClean(names, SchemaTrimChars);
    assert Truthy(names[0]);
  }

  /** A search_path string whose first entry is a double-quoted name, such
      as PostgreSQL's own default `"$user", public`, yields that name
      without its quotes. */
  lemma QuotedFirstEntry(name: string, rest: string)
    requires Truthy(name) && Clean(name) && ',' !in name
    requires rest == [] || rest[0] == ','
    ensures GetDefaultSchema(PathString(['"'] + name + ['"'] + rest)) == Some(name)
  {
    var s := ['"'] + name + ['"'] + rest;
    QuotedFirstPiece(name, rest);
    QuotedEntryTrims(name);
    var pieces := TrimEach(TrimEach(Explode(s, ','), Whitespace), SchemaTrimChars);
    assert pieces[0] == name;
    FirstTruthyHead(pieces, GetDefaultSchema(PathString(s)));
  }

  /** The first piece of such a string is the quoted entry. */
  lemma QuotedFirstPiece(name: string, rest: string)
    requires ',' !in name
    requires rest == [] || rest[0] == ','
    ensures Explode(['"'] + name + ['"'] + rest, ',')[0] == ['"'] + name + ['"']
  {
    var quoted := ['"'] + name + ['"'];
    assert ',' !in quoted;
    ExplodePrefix(quoted, rest, ',');
    if rest != [] {
      assert rest == [','] + rest[1..];
      ExplodeCons(',', rest[1..], ',');
    }
  }

  /** When the first entry is truthy, it is the first truthy one. */
  lemma FirstTruthyHead(xs: seq<string>, r: Option<string>)
    requires |xs| > 0 && Truthy(xs[0]) && IsFirstTruthy(xs, r)
    ensures r == Some(xs[0])
  {
    if r.Some? {
      var k :| 0 <= k < |xs| && xs[k] == r.value && Truthy(r.value) && forall j :: 0 <= j < k ==> !Truthy(xs[j]);
      assert k == 0;
    }
  }

  /** A double-quoted search_path entry with nothing to strip inside the
      quotes comes out as the bare name. */
  lemma QuotedEntryTrims(name: string)
    requires name != [] && name[0] !in SchemaTrimChars && name[|name| - 1] !in SchemaTrimChars
    ensures Trim(Trim(['"'] + name + ['"'], Whitespace), SchemaTrimChars) == name
  {
    var quoted := ['"'] + name + ['"'];
    assert quoted[0] == '"' && quoted[|quoted| - 1] == '"';
    TrimClean(quoted, Whitespace);
    EnclosedTrims(name, '"', SchemaTrimChars);
  }

  /** A name enclosed in a stripped character, with nothing to strip at
      either end of its own, loses the enclosing characters. */
  lemma EnclosedTrims(name: string, c: char, cs: set<char>)
    requires name != [] && c in cs
    requires name[0] !in cs && name[|name| - 1] !in cs
    ensures Trim([c] + name + [c], cs) == name
  {
    var s := [c] + name + [c];
    var i, j := TrimBounds(s, cs);
    TrimIsSlice(s, cs);
    assert s[1] == name[0] && s[|s| - 2] == name[|name| - 1];
    KeptCharBounds(s, 1, cs);
    KeptCharBounds(s, |s| - 2, cs);
    var t := Trim(s, cs);
    assert t[0] == s[i] && t[|t| - 1] == s[j - 1];
    assert t == s[1..|s| - 1];
  }

  /** A character `trim` keeps bounds the stripped prefix and suffix. */
  lemma KeptCharBounds(s: string, k: nat, cs: set<char>)
    requires k < |s| && s[k] !in cs
    ensures forall m :: k < m <= |s| ==> !AllIn(s[..m], cs)
    ensures forall m :: 0 <= m <= k ==> !AllIn(s[m..], cs)
  {
    forall m | k < m <= |s| ensures !AllIn(s[..m], cs) {
      assert s[..m][k] == s[k];
    }
    forall m | 0 <= m <= k ensures !AllIn(s[m..], cs) {
      assert s[m..][k - m] == s[k];
    }
  }

  /** What happens to the model's `$table` property. */
  datatype TableProperty = RemoveProperty | SetProperty(value: string)

  /** Moving into the connection's default schema removes the property;
      moving anywhere else sets it to `schemaTo.table`. */
  function PropertyChange(defaultSchema: Option<string>, schemaTo: string, table: string): (r: TableProperty)
    ensures r.RemoveProperty? <==> defaultSchema == Some(schemaTo)
  {
    if defaultSchema.Some? && schemaTo == defaultSchema.value then RemoveProperty
    else SetProperty(schemaTo + "." + table)
  }

  /** The value set is a qualified name that splits back into the schema and
      the table, as long as neither contains a dot. */
  lemma QualifiedNameSplits(defaultSchema: Option<string>, schemaTo: string, table: string)
    requires defaultSchema != Some(schemaTo)
    requires '.' !in schemaTo && '.' !in table
    ensures PropertyChange(defaultSchema, schemaTo, table).SetProperty?
    ensures Explode(PropertyChange(defaultSchema, schemaTo, table).value, '.') == [schemaTo, table]
  {
    assert Implode([schemaTo, table], ".") == schemaTo + "." + table;
    ExplodeImplode([schemaTo, table], '.');
  }

  /** The model file's path relative to the application directory: from the
      `--model` class name (backslashes become slashes, ".php" is appended
      and one leading "App/" is dropped), or by convention from the studly
      singular class name derived from the table. */
  function ModelRelativePath(modelOption: Option<string>, className: string): (r: string)
    ensures |r| >= 4 && r[|r| - 4..] == ".php"
    ensures modelOption.Some? ==> '\\' !in r
    ensures modelOption.Some? ==>
              var p := ReplaceChar(modelOption.value, '\\', '/') + ".php";
              if StartsWith(p, "App/") then "App/" + r == p else r == p
  {
    match modelOption
    case Some(m) =>
      var p := ReplaceChar(m, '\\', '/') + ".php";
      if StartsWith(p, "App/") then
        assert p[3] == '/';
        assert |ReplaceChar(m, '\\', '/')| >= 4;
        assert p == p[..4] + p[4..];
        p[4..]
      else p
    case None => "Models/" + className + ".php"
  }

  /** Naming the conventional class explicitly finds the same file. */
  lemma ExplicitModelMatchesConvention(className: string)
    requires '\\' !in className
    ensures ModelRelativePath(Some("App\\Models\\" + className), className) == ModelRelativePath(None, className)
  {
    var m := "App\\Models\\" + className;
    var p := ReplaceChar(m, '\\', '/') + ".php";
    assert ReplaceChar(m, '\\', '/') == "App/Models/" + className;
    assert StartsWith(p, "App/");
    assert p[4..] == "Models/" + className + ".php";
  }

  /** `app_path($relative)`: the path under the application directory.
      Laravel joins a non-empty argument with one separator after dropping
      the argument's own leading separators; an empty one gives the
      directory itself. */
  function AppPath(appDir: string, relative: string): (r: string)
    ensures relative == [] ==> r == appDir
    ensures relative != [] ==> |r| > |appDir| && r[..|appDir| + 1] == appDir + "/"
    ensures relative != [] && |r| > |appDir| + 1 ==> r[|appDir| + 1] != '/'
    ensures relative != [] && relative[0] != '/' ==> r == appDir + "/" + relative
  {
    if relative == [] then appDir else appDir + "/" + TrimLeft(relative, {'/'})
  }

  /** Leading separators on the argument make no difference to the path. */
  lemma AppPathIgnoresLeadingSlash(appDir: string, relative: string)
    requires relative != []
    ensures AppPath(appDir, "/" + relative) == AppPath(appDir, relative)
  {
    assert ("/" + relative)[1..] == relative;
  }

  /** Replacing in a string that starts with a backslash starts with a slash. */
  lemma ReplaceFirst(model: string)
    requires |model| > 0 && model[0] == '\\'
    ensures ReplaceChar(model, '\\', '/') == "/" + ReplaceChar(model[1..], '\\', '/')
  {
    var l := ReplaceChar(model, '\\', '/');
    var r := "/" + ReplaceChar(model[1..], '\\', '/');
    assert |l| == |r|;
    forall i | 0 < i < |l| ensures l[i] == r[i] {
      assert model[1..][i - 1] == model[i];
    }
  }

  /** A `--model` given with one leading backslash, such as
      `\\App\\Models\\User`, keeps its `App` directory, since the "App/"
      strip does not apply, and its leading separator is absorbed by the
      join. */
  lemma LeadingBackslashModelPath(appDir: string, model: string, className: string)
    requires |model| > 1 && model[0] == '\\' && model[1] != '\\' && model[1] != '/'
    ensures AppPath(appDir, ModelRelativePath(Some(model), className))
            == appDir + "/" + ReplaceChar(model[1..], '\\', '/') + ".php"
  {
    var rest := ReplaceChar(model[1..], '\\', '/') + ".php";
    var p := ReplaceChar(model, '\\', '/') + ".php";
    ReplaceFirst(model);
    assert p == "/" + rest;
    assert !StartsWith(p, "App/") by { assert "App/"[0] == 'A'; }
    assert rest[0] != '/';
    AppPathIgnoresLeadingSlash(appDir, rest);
  }

  /** Where the new property line goes, as the two regular expressions find
      it: after the last indented `use Trait;` line, else after the class's
      opening brace line, else nowhere. */
  datatype Anchor = AfterLastUse(pos: nat) | AfterClassBrace(pos: nat) | NoAnchor

  /** The inserted line; its surrounding blank lines depend on the anchor. */
  function PropertyLine(anchor: Anchor, value: string): string {
    match anchor
    case AfterLastUse(_) => "\n    protected $table = '" + value + "';\n"
    case _ => "    protected $table = '" + value + "';\n\n"
  }

  /** `insertTableProperty`: the contents up to the anchor, the new line, then
      the rest of the contents; nothing when no anchor was found. */
  function InsertTableProperty(contents: string, anchor: Anchor, value: string): (r: Option<string>)
    requires anchor.NoAnchor? || anchor.pos <= |contents|
    ensures r.Some? <==> !anchor.NoAnchor?
    ensures r.Some? ==>
              var line := PropertyLine(anchor, value);
              && |r.value| == |contents| + |line|
              && r.value[..anchor.pos] == contents[..anchor.pos]
              && r.value[anchor.pos..anchor.pos + |line|] == line
              && r.value[anchor.pos + |line|..] == contents[anchor.pos..]
  {
    if anchor.NoAnchor? then None
    else
      var line := PropertyLine(anchor, value);
      var r := contents[..anchor.pos] + line + contents[anchor.pos..];
      assert r[..anchor.pos] == contents[..anchor.pos];
      assert r[anchor.pos..anchor.pos + |line|] == line;
      assert r[anchor.pos + |line|..] == contents[anchor.pos..];
      Some(r)
  }

  /** Cutting the inserted line back out gives the original contents. */
  lemma InsertThenCut(contents: string, anchor: Anchor, value: string)
    requires !anchor.NoAnchor? && anchor.pos <= |contents|
    ensures var r := InsertTableProperty(contents, anchor, value).value;
            var line := PropertyLine(anchor, value);
            r[..anchor.pos] + r[anchor.pos + |line|..] == contents
  {
    assert contents == contents[..anchor.pos] + contents[anchor.pos..];
  }
}
