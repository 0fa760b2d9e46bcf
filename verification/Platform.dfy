/** The parts of the Infrastructure object that several components read. */
module Platform {
  datatype Option<+T> = None | Some(value: T)

  datatype VCenterSpec = VCenterSpec(server: string, datacenters: seq<string>)

  datatype FailureDomain = FailureDomain(
    name: string, region: string, zone: string, server: string,
    datacenter: string, folder: string, resourcePool: string, datastore: string)
}
