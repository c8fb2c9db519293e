// pkg/service/publisher.go: the choice of backend.
module Dispatch {
  import opened Options
  import opened ResourceName

  datatype Backend = Backend(name: string)

  class Service {
    const publisher: map<string, Backend>
    const defaultPublisher: Option<Backend>

    // A missing "default" entry leaves no default.
    constructor (publisher: map<string, Backend>)
      ensures this.publisher == publisher
      ensures defaultPublisher == if "default" in publisher then Some(publisher["default"]) else None
    {
      this.publisher := publisher;
      defaultPublisher := if "default" in publisher then Some(publisher["default"]) else None;
    }

    // Drops the parse error, as its caller does.
    function ParseDroppingError(s: string): RN {
      match Parse(s)
      case Ok(rn) => rn
      case _ => RN("", "")
    }

    // The backend that gets the event; none means an error that is not "key not found". The
    // choice rests on a successful parse alone: a failed parse is never looked up.
    method Choose(aggregateType: string) returns (chosen: Option<Backend>)
      ensures Parse(aggregateType).Ok? && Parse(aggregateType).rn.service in publisher ==>
                chosen == Some(publisher[Parse(aggregateType).rn.service])
      ensures Parse(aggregateType).Ok? && Parse(aggregateType).rn.service !in publisher ==>
                chosen == defaultPublisher
      ensures !Parse(aggregateType).Ok? ==> chosen == defaultPublisher
      ensures forall prefix, partition, service, region, account, resource ::
                HasSections(aggregateType, prefix, partition, service, region, account, resource) ==>
                  chosen == if service in publisher then Some(publisher[service]) else defaultPublisher
      ensures (forall prefix, partition, service, region, account, resource ::
                 !HasSections(aggregateType, prefix, partition, service, region, account, resource)) ==>
                chosen == defaultPublisher
    {
      forall prefix, partition, service, region, account, resource |
        HasSections(aggregateType, prefix, partition, service, region, account, resource)
        ensures Parse(aggregateType) == Ok(RN(service, resource))
      {
        SectionsParse(aggregateType, prefix, partition, service, region, account, resource);
      }
      ghost var prefix, partition, service, region, account, resource;
      if Parse(aggregateType).Ok? {
        prefix, partition, service, region, account, resource := ParsedHasSections(aggregateType);
      }
      chosen := defaultPublisher;
      if IsRN(aggregateType) {
        IsRNIffParses(aggregateType);
        var rn := ParseDroppingError(aggregateType);
        if rn.service in publisher {
          chosen := Some(publisher[rn.service]);
        }
      } else {
        IsRNIffParses(aggregateType);
      }
    }
  }
}
