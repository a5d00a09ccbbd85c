/** Response headers as name/value records, and the `Name: value` line PHP's header() receives. */
module Http {

  datatype Header = Header(name: string, value: string)

  function HeaderLine(h: Header): string
  {
    h.name + ": " + h.value
  }

  /** The header list of CodeIgniter's output object, which `set_header` extends. */
  class Output {
    var headers: seq<string>

    constructor()
      ensures headers == []
    {
      headers := [];
    }

    method SetHeader(line: string)
      modifies this
      ensures headers == old(headers) + [line]
    {
      headers := headers + [line];
    }
  }
}
