/** The query parameters of a `/submit` request and the ways a request can fail. */
module Request {
  import opened Wrappers

  // Keys shared by the query string, the handler's `data` dict and the indicator column prefixes.
  const BoroughKey: string := "borough"
  const LocationTypeKey: string := "location_type"
  const ComplaintTypeKey: string := "complaint_type"
  const ChannelKey: string := "open_data_channel_type"
  const DescriptorKey: string := "descriptor"
  const ClusterKey: string := "cluster_predicted"

  /** `request.args`: query parameter name to value. */
  type Args = map<string, string>

  /** Why a request aborts before its confirmation page is rendered. */
  datatype Error =
    | MissingParameter(name: string)  // `request.args[name]` for a name the request does not carry
    | DescriptorUnset                 // rendering reads `data['descriptor']`, which was never assigned

  /** `request.args[name]`. */
  function Param(args: Args, name: string): (r: Result<string, Error>)
    ensures r.Success? <==> name in args
    ensures r.Success? ==> r.value == args[name]
    ensures r.Failure? ==> r.error == MissingParameter(name)
  {
    if name in args then Success(args[name]) else Failure(MissingParameter(name))
  }
}
