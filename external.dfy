/**
 * The collaborators of the doc generator that live outside it: the
 * line writer it shares with the rest of the code generator, the sample
 * translation service, the markdown converter, the XML serialiser and the
 * naming utilities. All but the writer are pure functions of their inputs
 * and are taken as given function values.
 */
module External {
  import opened Jsii

  datatype TargetLanguage = Python | Java | CSharp | Go

  /** The identifier of the API element a sample belongs to. */
  datatype ApiLocation = ApiLocation(moduleName: string, declarationPath: string)

  /** The outcome of translating one code example. */
  datatype Translation = Translation(source: string, language: TargetLanguage)

  /** The assembly being generated, as far as the strictness lookup needs it. */
  datatype Assembly = Assembly(name: string, metadata: seq<(string, string)>)

  /** The sample translation service. */
  datatype Rosetta = Rosetta(
    translateExample: (ApiLocation, string, TargetLanguage, bool) -> Translation,
    translateSnippetsInMarkdown: (ApiLocation, string, TargetLanguage, bool) -> string
  )

  /** The .NET naming helpers. */
  datatype NameUtils = NameUtils(
    convertParameterName: string -> string,
    capitalizeWord: string -> string
  )

  /**
   * The pure collaborators: `markDownToXmlDoc`, `renderSummary`,
   * `enforcesStrictMode` and the XML builder's serialisation of one element
   * (tag name, text content, attributes in order) without pretty-printing.
   */
  datatype Env = Env(
    rosetta: Rosetta,
    assembly: Assembly,
    nameutils: NameUtils,
    markDownToXmlDoc: string -> string,
    renderSummary: Option<Docs> -> string,
    enforcesStrictMode: Assembly -> bool,
    serialize: (string, string, seq<(string, string)>) -> string
  )

  /** The append-only line writer shared by the code generator. */
  class CodeMaker {
    var lines: seq<string>

    constructor ()
      ensures lines == []
    {
      lines := [];
    }

    /** `line(s)`: appends one line. */
    method Line(s: string)
      modifies this
      ensures lines == old(lines) + [s]
    {
      lines := lines + [s];
    }
  }
}
