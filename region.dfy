/** The bucket-region lookup of internal/s3/region.go: one GetBucketLocation
    call for the bucket, its error passed through, and the location
    constraint turned into a region name, the empty constraint of US
    Standard becoming "us-east-1". */
module Region {

  datatype Option<T> = None | Some(value: T)

  /** The GetBucketLocation request. */
  datatype GetBucketLocationInput = GetBucketLocationInput(bucket: string)

  /** What GetBucketLocation answers: a location constraint, or an error. */
  datatype LocationReply = Location(constraint: string) | LocationError(err: string)

  /** The service, as the answer it gives to each request. */
  type LocationClient = GetBucketLocationInput -> LocationReply

  /** The two results of GetBucketRegion: the region, and the error. */
  datatype RegionAnswer = RegionAnswer(region: string, err: Option<string>)

  /** The region US Standard buckets report with an empty constraint. */
  const UsStandard: string := "us-east-1"

  /** GetBucketRegion: ask for the location of exactly `bucket`; an error
      comes back unchanged with an empty region; otherwise the region is the
      constraint, or "us-east-1" when the constraint is empty. */
  function GetBucketRegion(client: LocationClient, bucket: string): (r: RegionAnswer)
    ensures var reply := client(GetBucketLocationInput(bucket));
      && (r.err.Some? <==> reply.LocationError?)
      && (reply.LocationError? ==> r == RegionAnswer("", Some(reply.err)))
      && (reply.Location? ==> r.region != "" && (r.region == reply.constraint || reply.constraint == ""))
      && (reply == Location("") ==> r.region == UsStandard)
  {
    var reply := client(GetBucketLocationInput(bucket));
    if reply.LocationError? then
      RegionAnswer("", Some(reply.err))
    else if reply.constraint == "" then
      RegionAnswer(UsStandard, None)
    else
      RegionAnswer(reply.constraint, None)
  }

  /** A successful lookup names "us-east-1" exactly when the constraint is
      empty or already "us-east-1"; any other region is the constraint
      itself, so the constraint can be read back from the region. */
  lemma RegionNamesConstraint(client: LocationClient, bucket: string)
    requires client(GetBucketLocationInput(bucket)).Location?
    ensures var c := client(GetBucketLocationInput(bucket)).constraint;
      var r := GetBucketRegion(client, bucket);
      && r.err == None
      && (r.region == UsStandard <==> c == "" || c == UsStandard)
      && (r.region != UsStandard ==> c == r.region)
      && (c != "" ==> r.region == c)
  {
  }

  /** Only the answer for the bucket asked about matters: two services that
      agree on that bucket give the same result. */
  lemma OnlyThatBucket(c1: LocationClient, c2: LocationClient, bucket: string)
    requires c1(GetBucketLocationInput(bucket)) == c2(GetBucketLocationInput(bucket))
    ensures GetBucketRegion(c1, bucket) == GetBucketRegion(c2, bucket)
  {
  }

  /** The US Standard bucket: an empty constraint gives "us-east-1". */
  lemma EmptyConstraintIsUsEast1(client: LocationClient)
    requires client(GetBucketLocationInput("us-east-bucket")) == Location("")
    ensures GetBucketRegion(client, "us-east-bucket") == RegionAnswer("us-east-1", None)
  {
  }

  /** An EU bucket: the constraint "eu-west-1" is the region. */
  lemma EuWest1PassesThrough(client: LocationClient)
    requires client(GetBucketLocationInput("eu-bucket")) == Location("eu-west-1")
    ensures GetBucketRegion(client, "eu-bucket") == RegionAnswer("eu-west-1", None)
  {
  }

  /** A failed lookup: the error is returned as it came, with no region. */
  lemma ErrorPassesThrough(client: LocationClient)
    requires client(GetBucketLocationInput("error-bucket")) == LocationError("bucket not found")
    ensures GetBucketRegion(client, "error-bucket") == RegionAnswer("", Some("bucket not found"))
  {
  }
}
