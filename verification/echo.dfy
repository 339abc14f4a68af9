/**
 * example/echo: a service that answers every event with a fixed reply
 * chosen by the input's type.
 */
module Echo {
  import opened Wrappers
  import opened Events
  import opened Integers
  import Categories
  import Strings
  import ConfigMaps

  const JsonType := "application/json"
  const TextType := "application/text"

  /** The three reply texts, and their bytes. */
  const JsonText := "{\"message\":\"echo\"}"
  const TextText := "echo"
  const DefaultText := "default echo"

  const JsonBody: seq<Byte> := [123, 34, 109, 101, 115, 115, 97, 103, 101, 34, 58, 34, 101, 99, 104, 111, 34, 125]
  const TextBody: seq<Byte> := [101, 99, 104, 111]
  const DefaultBody: seq<Byte> := [100, 101, 102, 97, 117, 108, 116, 32, 101, 99, 104, 111]

  /** `b` spells the ASCII text `s` one byte per character. */
  predicate AsciiSpelling(s: string, b: seq<Byte>) {
    |b| == |s| && forall i :: 0 <= i < |s| ==> s[i] as int < 0x80 && b[i] == s[i] as int
  }

  /** Each body spells its text, so it is that text's UTF-8 encoding (AsciiBytes). */
  lemma BodiesSpellTexts()
    ensures AsciiSpelling(JsonText, JsonBody)
    ensures AsciiSpelling(TextText, TextBody)
    ensures AsciiSpelling(DefaultText, DefaultBody)
  {
  }

  /** An ASCII spelling is the UTF-8 encoding, which is what Go's []byte conversion produces. */
  lemma AsciiBytes(s: string, b: seq<Byte>)
    requires AsciiSpelling(s, b)
    ensures Strings.Utf8(s) == b
  {
    Strings.Utf8Ascii(s);
  }

  class Echo {
    var values: ConfigMaps.ConfigMap

    /** New: an echo service with no configuration. */
    constructor ()
      ensures values == map[]
    {
      values := map[];
    }

    function Name(): string { "abesh_example_echo" }

    function Version(): string { "0.0.1" }

    /** Category: the service category. */
    function Category(): (s: string)
      ensures s == "service"
    {
      Categories.CategoryString(Categories.Service)
    }

    function ContractId(): string { "abesh:ex_echo" }

    /** SetConfigMap: keeps the configuration as given; it never fails. */
    method SetConfigMap(configuration: ConfigMaps.ConfigMap) returns (err: Option<Failure>)
      modifies this`values
      ensures values == configuration && err.None?
    {
      values := configuration;
      return None;
    }

    /** GetConfigMap: the configuration last set. */
    function GetConfigMap(): (c: ConfigMaps.ConfigMap)
      reads this`values
      ensures c == values
    {
      values
    }

    /**
     * Serve: status 200 "OK" under this service's contract id, with a body and
     * a matching type chosen by the input's type, and never an error.
     */
    method Serve(input: Event) returns (output: Event, err: Option<Failure>)
      ensures err.None?
      ensures output.metadata.statusCode == 200 && output.metadata.status == "OK"
      ensures output.metadata.contractIdList == ["abesh:ex_echo"]
      ensures output.metadata.headers.Keys == {"Content-Type"}
      ensures output.metadata.headers["Content-Type"] == output.typeUrl
      ensures input.typeUrl == JsonType ==>
        output.typeUrl == JsonType && output.value == JsonBody
      ensures input.typeUrl == TextType ==>
        output.typeUrl == TextType && output.value == TextBody
      ensures input.typeUrl != JsonType && input.typeUrl != TextType ==>
        output.typeUrl == TextType && output.value == DefaultBody
    {
      var m := EmptyMetadata.(
        headers := map["Content-Type" := TextType],
        contractIdList := [ContractId()],
        statusCode := 200,
        status := "OK");
      output := Event(m, TextType, DefaultBody);
      if input.typeUrl == JsonType {
        m := m.(headers := m.headers["Content-Type" := JsonType]);
        output := output.(metadata := m, typeUrl := JsonType, value := JsonBody);
      }
      if input.typeUrl == TextType {
        m := m.(headers := m.headers["Content-Type" := TextType]);
        output := output.(metadata := m, typeUrl := TextType, value := TextBody);
      }
      return output, None;
    }
  }
}
