/** Image presence check (`getMicrok8sImageStatus`): normalise the image id
    with the public registry's default host and namespace, list the images of
    the cluster's content store, and report whether the id is one of the
    listed lines. */
module ImageStatus {
  import opened Wrappers
  import opened Text
  import opened Process

  /** The parsed form of an image id; a missing part is `None`. */
  datatype ImageRef = ImageRef(host: Option<string>, namespace: Option<string>, repository: string, tag: Option<string>)

  const DefaultHost := "docker.io"
  const DefaultNamespace := "library"

  const ListImagesCommand := Command("microk8s", ["ctr", "images", "ls", "-q"], None)

  /** The value when it is present and not empty, the fallback otherwise. */
  function OrElse(value: Option<string>, fallback: string): string
  {
    if value.None? || value.value == "" then fallback else value.value
  }

  /** The parsed id with the default registry host and namespace filled in
      where they are missing or empty; every other part is kept. */
  function WithRegistryDefaults(parsed: ImageRef): (normalized: ImageRef)
    ensures normalized.repository == parsed.repository && normalized.tag == parsed.tag
    ensures normalized.host.Some? && normalized.host.value != ""
    ensures normalized.namespace.Some? && normalized.namespace.value != ""
    ensures parsed.host.Some? && parsed.host.value != "" ==> normalized.host == parsed.host
    ensures parsed.host.None? || parsed.host.value == "" ==> normalized.host == Some(DefaultHost)
    ensures parsed.namespace.Some? && parsed.namespace.value != "" ==> normalized.namespace == parsed.namespace
    ensures parsed.namespace.None? || parsed.namespace.value == "" ==> normalized.namespace == Some(DefaultNamespace)
  {
    parsed.(host := Some(OrElse(parsed.host, DefaultHost)), namespace := Some(OrElse(parsed.namespace, DefaultNamespace)))
  }

  /** An id is left alone exactly when it already names its host and namespace,
      so normalising twice is the same as normalising once. */
  lemma RegistryDefaultsFixedPoints(parsed: ImageRef)
    ensures WithRegistryDefaults(parsed) == parsed <==>
            parsed.host.Some? && parsed.host.value != "" && parsed.namespace.Some? && parsed.namespace.value != ""
    ensures WithRegistryDefaults(WithRegistryDefaults(parsed)) == WithRegistryDefaults(parsed)
  {
  }

  /** The id looked up in the content store. */
  function ClusterImageId(parseImageId: string -> ImageRef, unparseImageId: ImageRef -> string, imageId: string): string
  {
    unparseImageId(WithRegistryDefaults(parseImageId(imageId)))
  }

  /** When the parser reads back what the formatter wrote for the normalised
      id, the cluster id is already normal: normalising it again changes nothing. */
  lemma ClusterImageIdIsNormalised(parseImageId: string -> ImageRef, unparseImageId: ImageRef -> string, imageId: string)
    requires var normalized := WithRegistryDefaults(parseImageId(imageId));
             parseImageId(unparseImageId(normalized)) == normalized
    ensures var clusterId := ClusterImageId(parseImageId, unparseImageId, imageId);
            ClusterImageId(parseImageId, unparseImageId, clusterId) == clusterId
  {
    RegistryDefaultsFixedPoints(parseImageId(imageId));
  }

  /** The id is one whole line of the listing. */
  predicate ImageListed(listing: string, id: string)
  {
    id in SplitLines(listing)
  }

  /** A listing of newline-free ids, one per line, reports an id exactly when it is one of them. */
  lemma ImageListedIffOneOfTheLines(ids: seq<string>, id: string)
    requires |ids| >= 1
    requires forall k :: 0 <= k < |ids| ==> '\n' !in ids[k]
    ensures ImageListed(JoinLines(ids), id) <==> id in ids
  {
    SplitJoinLines(ids);
  }

  /** The `ready` flag of the build status. */
  datatype BuildStatus = BuildStatus(ready: bool)

  /** What `getMicrok8sImageStatus` returns or throws, given the outcome of the listing command. */
  function ImageStatusResult(listing: ExecOutcome, clusterId: string): (r: Result<BuildStatus, Error>)
    ensures r.Ok? <==> listing.Completed?
    ensures r.Ok? ==> (r.value.ready <==> ImageListed(listing.stdout, clusterId))
    ensures r.Ok? && r.value.ready ==> '\n' !in clusterId
    ensures r.Err? ==> r.error == Failure(ListImagesCommand, listing)
  {
    match listing
    case Completed(stdout) => Ok(BuildStatus(ImageListed(stdout, clusterId)))
    case Rejected(_, _) => Err(Failure(ListImagesCommand, listing))
  }
}
