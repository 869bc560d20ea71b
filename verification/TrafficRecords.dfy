/** Captured requests as the user interface keeps them, and the rows of its traffic list. */
module TrafficRecords {
  import opened Wrappers

  /** What is known of a request so far. `details` holds the fields that no list row shows. */
  datatype PartialRecord = PartialRecord(
    verb: Option<string>,
    url: Option<string>,
    status: Option<string>,
    statusCode: Option<int>,
    requestType: Option<string>,
    requestHeaders: Option<seq<(string, string)>>,
    details: map<string, string>)

  datatype TrafficRecord = TrafficRecord(
    id: string,
    url: string,
    verb: string,
    requestType: string,
    status: string,
    statusCode: Option<int>)
}
