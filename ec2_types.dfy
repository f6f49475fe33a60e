/** The records of `src/ec2_service.py` and the EC2 API they are read from.
    The API is an oracle: for each request it says how the n-th call made
    for that request ends. */
module Ec2Types {
  import opened Outcomes

  /** One element of an instance's `Tags` list. */
  datatype Tag = Tag(key: string, value: string)

  /** An instance as `describe_instances` lists it: `InstanceId`,
      `State.Name` and `Tags`. */
  datatype Descriptor = Descriptor(instanceId: string, state: string, tags: seq<Tag>)

  /** A reservation's `Instances`; an absent key is the empty list. */
  type Reservation = seq<Descriptor>

  /** A page's `Reservations`; an absent key is the empty list. */
  type Page = seq<Reservation>

  /** One `{'Name': ..., 'Values': [...]}` entry of a `Filters` argument. */
  datatype Filter = Filter(name: string, values: seq<string>)

  /** `InstanceInfo`: a discovered instance. */
  datatype InstanceInfo = InstanceInfo(instanceId: string, state: string, tags: map<string, string>)

  /** The oracle for the three EC2 requests the service makes.
      - listPages(filters)(n): the n-th walk of the paginated, filtered
        `describe_instances` listing: every page, or the exception the walk raised;
      - describe(id)(n): the n-th `describe_instances(InstanceIds=[id])`: the
        response's `Reservations`, or the exception;
      - stop(id)(n): the n-th `stop_instances(InstanceIds=[id])`. */
  datatype Ec2Api = Ec2Api(
    listPages: seq<Filter> -> nat -> Outcome<seq<Page>>,
    describe: string -> nat -> Outcome<seq<Reservation>>,
    stop: string -> nat -> Outcome<()>)
}
