/**
 * One exchange of a recorded browser session (a HAR `entries` item), reduced
 * to the fields the decision code reads.
 */
module Har {
  import opened Wrappers

  /** A header or query-string item: `{"name": ..., "value": ...}`. */
  datatype NameValue = NameValue(name: string, value: string)

  /**
   * `netloc` stands for `urlparse(url).netloc` (`None` where `urlparse`
   * raises); `mimeType` and `text` are the response content fields, already
   * defaulted to `''` when absent.
   */
  datatype Entry = Entry(
    verb: string,
    url: string,
    netloc: Option<string>,
    headers: seq<NameValue>,
    queryString: seq<NameValue>,
    mimeType: string,
    text: string)
}
