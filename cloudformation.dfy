/** The CloudFormation parser: JSON when the suffix is `.json` in any case,
    YAML otherwise, every failure re-raised with the file's path, and four
    accessors for the template's sections. `read` is what `read_text`
    gave; `json` and `yaml` stand for `json.loads` and `yaml.safe_load`. */
module CloudFormationParser {
  import opened Values
  import opened Paths

  /** The text of the `ValueError` that `parse` raises. */
  function ParseError(path: string, e: string): string {
    "Failed to parse CloudFormation file " + path + ": " + e
  }

  /** JSON decoding is chosen by the lower-cased final suffix. */
  predicate IsJson(path: string) {
    Lower(Suffix(PathName(path))) == ".json"
  }

  /** `parse`. */
  function Parse(path: string, read: Result<string>, json: string -> Result<Value>, yaml: string -> Result<Value>): (r: Result<Value>)
    ensures r.Ok? <==> read.Ok? && (if IsJson(path) then json(read.value) else yaml(read.value)).Ok?
  {
    match read
    case Err(e) => Err(ParseError(path, e))
    case Ok(content) =>
      var decoded := if IsJson(path) then json(content) else yaml(content);
      match decoded
      case Err(e) => Err(ParseError(path, e))
      case Ok(v) => Ok(v)
  }

  /** A parsed template is exactly what the chosen decoder produced, and a
      failure names the file ahead of the cause. */
  lemma ParseOutcome(path: string, read: Result<string>, json: string -> Result<Value>, yaml: string -> Result<Value>)
    ensures var r := Parse(path, read, json, yaml);
            (r.Ok? ==> r.value == (if IsJson(path) then json(read.value) else yaml(read.value)).value) &&
            (read.Err? ==> r == Err(ParseError(path, read.error))) &&
            (read.Ok? && r.Err? ==> r == Err(ParseError(path, (if IsJson(path) then json(read.value) else yaml(read.value)).error))) &&
            (r.Err? ==> IsPrefix("Failed to parse CloudFormation file " + path + ": ", r.error))
  {
  }

  /** A JSON template never consults the YAML decoder, and any other file
      never consults the JSON decoder. */
  lemma DecoderChoice(path: string, read: Result<string>, json1: string -> Result<Value>, json2: string -> Result<Value>,
                      yaml1: string -> Result<Value>, yaml2: string -> Result<Value>)
    ensures IsJson(path) ==> Parse(path, read, json1, yaml1) == Parse(path, read, json1, yaml2)
    ensures !IsJson(path) ==> Parse(path, read, json1, yaml1) == Parse(path, read, json2, yaml1)
  {
  }

  lemma LowerJsonIsJson()
    ensures IsJson("/tmp/stack.json")
  {
    LastIndexAt("/tmp/stack.json", '/', 4);
    assert PathName("/tmp/stack.json") == "stack.json";
    LastIndexAt("stack.json", '.', 5);
    assert Suffix("stack.json") == ".json";
    var x := Lower(".json");
    assert x[0] == '.' && x[1] == 'j' && x[2] == 's' && x[3] == 'o' && x[4] == 'n';
  }

  lemma UpperJsonIsJson()
    ensures IsJson("/tmp/stack.JSON")
  {
    LastIndexAt("/tmp/stack.JSON", '/', 4);
    assert PathName("/tmp/stack.JSON") == "stack.JSON";
    LastIndexAt("stack.JSON", '.', 5);
    assert Suffix("stack.JSON") == ".JSON";
    var x := Lower(".JSON");
    assert x[0] == '.' && x[1] == 'j' && x[2] == 's' && x[3] == 'o' && x[4] == 'n';
  }

  lemma YamlIsYaml()
    ensures !IsJson("/tmp/stack.yaml")
  {
    LastIndexAt("/tmp/stack.yaml", '/', 4);
    assert PathName("/tmp/stack.yaml") == "stack.yaml";
    LastIndexAt("stack.yaml", '.', 5);
    assert Suffix("stack.yaml") == ".yaml";
    assert Lower(".yaml")[1] == 'y';
  }

  lemma TemplateIsYaml()
    ensures !IsJson("/tmp/stack.template")
  {
    LastIndexAt("/tmp/stack.template", '/', 4);
    assert PathName("/tmp/stack.template") == "stack.template";
    LastIndexAt("stack.template", '.', 5);
    assert |Suffix("stack.template")| == 9;
  }

  /** `.json` and `.JSON` are JSON. */
  lemma JsonSuffixes()
    ensures IsJson("/tmp/stack.json")
    ensures IsJson("/tmp/stack.JSON")
  {
    LowerJsonIsJson();
    UpperJsonIsJson();
  }

  /** `.yaml` and `.template` are YAML. */
  lemma YamlSuffixes()
    ensures !IsJson("/tmp/stack.yaml")
    ensures !IsJson("/tmp/stack.template")
  {
    YamlIsYaml();
    TemplateIsYaml();
  }

  /** A JSON template parses to the value its text encodes. */
  lemma JsonTemplateRoundTrip(content: string, template: Value, json: string -> Result<Value>, yaml: string -> Result<Value>)
    requires json(content) == Ok(template)
    ensures Parse("/tmp/stack.json", Ok(content), json, yaml) == Ok(template)
  {
    JsonSuffixes();
  }

  /** A YAML template that decodes to a `Resources` section holding
      `MyBucket` exposes it through `get_resources`. */
  lemma YamlTemplateResources(content: string, bucket: Value, json: string -> Result<Value>, yaml: string -> Result<Value>)
    requires yaml(content) == Ok(Obj([Field("AWSTemplateFormatVersion", Str("2010-09-09")),
                                     Field("Resources", Obj([Field("MyBucket", bucket)]))]))
    ensures var r := Parse("/tmp/stack.yaml", Ok(content), json, yaml);
            r.Ok? && Contains(r.value, "Resources") == Ok(true) &&
            GetResources(r.value) == Ok(Obj([Field("MyBucket", bucket)])) &&
            Contains(GetResources(r.value).value, "MyBucket") == Ok(true)
  {
    YamlIsYaml();
    var doc := yaml(content).value;
    assert Parse("/tmp/stack.yaml", Ok(content), json, yaml) == Ok(doc);
    var resources := Obj([Field("MyBucket", bucket)]);
    assert doc.fields[0].key != "Resources" by {
      assert doc.fields[0].key[0] == 'A';
    }
    assert Lookup(doc.fields, "Resources") == Some(resources);
    assert doc.fields[1].key == "Resources";
    assert resources.fields[0].key == "MyBucket";
  }

  /** `get_resources`: the `Resources` section, or `{}`. */
  function GetResources(parsed: Value): Result<Value> {
    Get(parsed, "Resources", EmptyObj)
  }

  /** `get_parameters`: the `Parameters` section, or `{}`. */
  function GetParameters(parsed: Value): Result<Value> {
    Get(parsed, "Parameters", EmptyObj)
  }

  /** `get_outputs`: the `Outputs` section, or `{}`. */
  function GetOutputs(parsed: Value): Result<Value> {
    Get(parsed, "Outputs", EmptyObj)
  }

  /** `get_mappings`: the `Mappings` section, or `{}`. */
  function GetMappings(parsed: Value): Result<Value> {
    Get(parsed, "Mappings", EmptyObj)
  }

  /** Each accessor reads its own section of a dict; a template that is not
      a dict makes every accessor fail. */
  lemma AccessorsReadTheirSection(parsed: Value)
    ensures parsed.Obj? ==> ReadsSection(GetResources(parsed), parsed.fields, "Resources")
    ensures parsed.Obj? ==> ReadsSection(GetParameters(parsed), parsed.fields, "Parameters")
    ensures parsed.Obj? ==> ReadsSection(GetOutputs(parsed), parsed.fields, "Outputs")
    ensures parsed.Obj? ==> ReadsSection(GetMappings(parsed), parsed.fields, "Mappings")
    ensures !parsed.Obj? ==> GetResources(parsed).Err? && GetParameters(parsed).Err? &&
                             GetOutputs(parsed).Err? && GetMappings(parsed).Err?
  {
  }
}
