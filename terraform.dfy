/** The Terraform parser: JSON for a `.json` file, HCL for anything else,
    every failure re-raised with the file's path, and four accessors for
    the top-level blocks. Reading the file and the two decoders are
    parameters: `read` is what `read_text` gave, `json` and `hcl` stand for
    `json.loads` and `hcl2.loads`. */
module TerraformParser {
  import opened Values
  import opened Paths

  /** The text of the `ValueError` that `parse` raises. */
  function ParseError(path: string, e: string): string {
    "Failed to parse Terraform file " + path + ": " + e
  }

  /** JSON decoding is chosen by the exact, case-sensitive final suffix. */
  predicate IsJson(path: string) {
    Suffix(PathName(path)) == ".json"
  }

  /** `parse`. */
  function Parse(path: string, read: Result<string>, json: string -> Result<Value>, hcl: string -> Result<Value>): (r: Result<Value>)
    ensures r.Ok? <==> read.Ok? && (if IsJson(path) then json(read.value) else hcl(read.value)).Ok?
  {
    match read
    case Err(e) => Err(ParseError(path, e))
    case Ok(content) =>
      var decoded := if IsJson(path) then json(content) else hcl(content);
      match decoded
      case Err(e) => Err(ParseError(path, e))
      case Ok(v) => Ok(v)
  }

  /** A parsed file is exactly what the chosen decoder produced, and a failure,
      of the read or of the decoder, names the file ahead of the cause. */
  lemma ParseOutcome(path: string, read: Result<string>, json: string -> Result<Value>, hcl: string -> Result<Value>)
    ensures var r := Parse(path, read, json, hcl);
            (r.Ok? ==> r.value == (if IsJson(path) then json(read.value) else hcl(read.value)).value) &&
            (read.Err? ==> r == Err(ParseError(path, read.error))) &&
            (read.Ok? && r.Err? ==> r == Err(ParseError(path, (if IsJson(path) then json(read.value) else hcl(read.value)).error))) &&
            (r.Err? ==> IsPrefix("Failed to parse Terraform file " + path + ": ", r.error))
  {
  }

  /** A `.json` file never consults the HCL decoder, and any other file never
      consults the JSON decoder. */
  lemma DecoderChoice(path: string, read: Result<string>, json1: string -> Result<Value>, json2: string -> Result<Value>,
                      hcl1: string -> Result<Value>, hcl2: string -> Result<Value>)
    ensures IsJson(path) ==> Parse(path, read, json1, hcl1) == Parse(path, read, json1, hcl2)
    ensures !IsJson(path) ==> Parse(path, read, json1, hcl1) == Parse(path, read, json2, hcl1)
  {
  }

  lemma TfJsonIsJson()
    ensures IsJson("/tmp/main.tf.json")
  {
    LastIndexAt("/tmp/main.tf.json", '/', 4);
    assert PathName("/tmp/main.tf.json") == "main.tf.json";
    LastIndexAt("main.tf.json", '.', 7);
  }

  lemma TfIsHcl()
    ensures !IsJson("/tmp/main.tf")
  {
    LastIndexAt("/tmp/main.tf", '/', 4);
    assert PathName("/tmp/main.tf") == "main.tf";
    LastIndexAt("main.tf", '.', 4);
    assert Suffix("main.tf") == ".tf";
  }

  lemma UpperJsonIsHcl()
    ensures !IsJson("/tmp/main.JSON")
  {
    LastIndexAt("/tmp/main.JSON", '/', 4);
    assert PathName("/tmp/main.JSON") == "main.JSON";
    LastIndexAt("main.JSON", '.', 4);
    assert Suffix("main.JSON")[1] == 'J';
  }

  /** `x.tf.json` is JSON; `x.tf` and the upper-case `x.JSON` are HCL. */
  lemma SuffixExamples()
    ensures IsJson("/tmp/main.tf.json")
    ensures !IsJson("/tmp/main.tf")
    ensures !IsJson("/tmp/main.JSON")
  {
    TfJsonIsJson();
    TfIsHcl();
    UpperJsonIsHcl();
  }

  /** A `.tf.json` file parses to the value its JSON text encodes. */
  lemma JsonFileRoundTrip(content: string, doc: Value, json: string -> Result<Value>, hcl: string -> Result<Value>)
    requires json(content) == Ok(doc)
    ensures Parse("/tmp/main.tf.json", Ok(content), json, hcl) == Ok(doc)
  {
    SuffixExamples();
  }

  /** `get_resources`: the `resource` block, or `{}`. */
  function GetResources(parsed: Value): Result<Value> {
    Get(parsed, "resource", EmptyObj)
  }

  /** `get_data_sources`: the `data` block, or `{}`. */
  function GetDataSources(parsed: Value): Result<Value> {
    Get(parsed, "data", EmptyObj)
  }

  /** `get_variables`: the `variable` block, or `{}`. */
  function GetVariables(parsed: Value): Result<Value> {
    Get(parsed, "variable", EmptyObj)
  }

  /** `get_outputs`: the `output` block, or `{}`. */
  function GetOutputs(parsed: Value): Result<Value> {
    Get(parsed, "output", EmptyObj)
  }

  /** Each accessor reads its own block of a dict; a document that is not
      a dict makes every accessor fail. */
  lemma AccessorsReadTheirBlock(parsed: Value)
    ensures parsed.Obj? ==> ReadsSection(GetResources(parsed), parsed.fields, "resource")
    ensures parsed.Obj? ==> ReadsSection(GetDataSources(parsed), parsed.fields, "data")
    ensures parsed.Obj? ==> ReadsSection(GetVariables(parsed), parsed.fields, "variable")
    ensures parsed.Obj? ==> ReadsSection(GetOutputs(parsed), parsed.fields, "output")
    ensures !parsed.Obj? ==> GetResources(parsed).Err? && GetDataSources(parsed).Err? &&
                             GetVariables(parsed).Err? && GetOutputs(parsed).Err?
  {
  }

  /** A document with `resource` and `variable` blocks: `get_resources`
      returns the `aws_s3_bucket` map that holds `test`, and nothing of the
      variables. */
  lemma GetResourcesScenario()
    ensures var bucket := Obj([Field("bucket", Str("test-bucket"))]);
            var resources := Obj([Field("aws_s3_bucket", Obj([Field("test", bucket)]))]);
            var doc := Obj([Field("resource", resources),
                            Field("variable", Obj([Field("name", Obj([Field("type", Str("string"))]))]))]);
            GetResources(doc) == Ok(resources) &&
            Contains(GetResources(doc).value, "aws_s3_bucket") == Ok(true) &&
            Contains(Index(GetResources(doc).value, "aws_s3_bucket").value, "test") == Ok(true)
  {
    var bucket := Obj([Field("bucket", Str("test-bucket"))]);
    var buckets := Obj([Field("test", bucket)]);
    var resources := Obj([Field("aws_s3_bucket", buckets)]);
    var doc := Obj([Field("resource", resources),
                    Field("variable", Obj([Field("name", Obj([Field("type", Str("string"))]))]))]);
    assert doc.fields[0].key == "resource";
    assert resources.fields[0].key == "aws_s3_bucket";
    assert buckets.fields[0].key == "test";
    assert HasKey(resources.fields, "aws_s3_bucket");
    assert Index(resources, "aws_s3_bucket") == Ok(buckets);
    assert HasKey(buckets.fields, "test");
  }
}
