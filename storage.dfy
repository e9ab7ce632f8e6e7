/**
 * Uploaded resource files: the key an upload stores a file under, the
 * public URL the storage service gives for it, and the key the media
 * manager reads back out of that URL when the resource is deleted.
 */
module Storage {
  import opened Wrappers
  import opened Strings

  /** The bucket, which is also the folder the upload puts files in. */
  const Bucket: string := "resource_uploads"
  const BucketSegment: string := "resource_uploads/"

  /** The text that marks a public URL of a file in the bucket. */
  const PublicPath: string := "supabase.co/storage/v1/object/public/"
  const PublicMarker: string := PublicPath + BucketSegment

  /** `resource_uploads/${fileName}`: the key of an uploaded file inside the bucket. */
  function UploadKey(fileName: string): (k: string)
    ensures |k| == |BucketSegment| + |fileName| && k[..|BucketSegment|] == BucketSegment
  {
    BucketSegment + fileName
  }

  /** The URL up to the bucket segment, for a project. */
  function UrlPrefix(project: string): string {
    "https://" + project + "." + PublicPath
  }

  /** `getPublicUrl(key).publicUrl`: the project URL, the public object path, the bucket, then the key. */
  function PublicUrl(project: string, key: string): (u: string)
  {
    UrlPrefix(project) + BucketSegment + key
  }

  /** The bucket name does not appear in the URL before its own segment. */
  predicate PlainProject(project: string) {
    !Contains(UrlPrefix(project) + BucketSegment[..|BucketSegment| - 1], BucketSegment)
  }

  /** The middle of a concatenation. */
  lemma Middle(h: string, m: string, k: string)
    ensures OccursAt(h + m + k, m, |h|)
  {
    assert (h + m + k)[|h|..|h| + |m|] == m;
  }

  /** A public URL holds the marker. */
  lemma PublicUrlMarked(project: string, key: string)
    ensures Contains(PublicUrl(project, key), PublicMarker)
  {
    var head := "https://" + project + ".";
    assert PublicUrl(project, key) == head + PublicMarker + key;
    Middle(head, PublicMarker, key);
  }

  /** In a public URL the first bucket segment is the one after the public path. */
  lemma PublicUrlParts(project: string, key: string)
    requires PlainProject(project)
    ensures Contains(PublicUrl(project, key), PublicMarker)
    ensures IndexOf(PublicUrl(project, key), BucketSegment) == Some(|UrlPrefix(project)|)
  {
    PublicUrlMarked(project, key);
    var u := PublicUrl(project, key);
    var p := UrlPrefix(project);
    Middle(p, BucketSegment, key);
    assert u[..|p| + |BucketSegment| - 1] == p + BucketSegment[..|BucketSegment| - 1];
    IndexOfFirst(u, BucketSegment, |p|);
  }

  /**
   * `mediaUrl.substring(mediaUrl.indexOf('resource_uploads/'))`, computed
   * for a URL holding the public marker: everything from the first bucket
   * segment on, the segment included.
   */
  function StoragePathAsWritten(url: string): (path: string)
    requires Contains(url, PublicMarker)
    ensures |BucketSegment| <= |path| <= |url| && path == url[|url| - |path|..]
    ensures path[..|BucketSegment|] == BucketSegment
  {
    ContainsPart(url, PublicMarker, |PublicMarker| - |BucketSegment|, BucketSegment);
    var i := IndexOf(url, BucketSegment).value;
    assert url[i..][..|BucketSegment|] == url[i..i + |BucketSegment|];
    url[i..]
  }

  /** The path read from the URL of an uploaded file keeps the bucket segment, so it is not the key the file was stored under. */
  lemma AsWrittenMissesUpload(project: string, fileName: string)
    requires PlainProject(project)
    ensures Contains(PublicUrl(project, UploadKey(fileName)), PublicMarker)
    ensures StoragePathAsWritten(PublicUrl(project, UploadKey(fileName))) == BucketSegment + UploadKey(fileName)
    ensures StoragePathAsWritten(PublicUrl(project, UploadKey(fileName))) != UploadKey(fileName)
  {
    var key := UploadKey(fileName);
    PublicUrlParts(project, key);
    var u := PublicUrl(project, key);
    assert u[|UrlPrefix(project)|..] == BucketSegment + key;
    assert |BucketSegment + key| != |key|;
  }

  /** The key read from a public URL: the text after its first bucket segment. */
  function StoragePath(url: string): (path: string)
    requires Contains(url, PublicMarker)
    ensures |path| < |url| && path == url[|url| - |path|..]
  {
    ContainsPart(url, PublicMarker, |PublicMarker| - |BucketSegment|, BucketSegment);
    url[IndexOf(url, BucketSegment).value + |BucketSegment|..]
  }

  /** The key read from the public URL of a file is the key the file was stored under. */
  lemma StoragePathRoundTrip(project: string, key: string)
    requires PlainProject(project)
    ensures Contains(PublicUrl(project, key), PublicMarker)
    ensures StoragePath(PublicUrl(project, key)) == key
  {
    PublicUrlParts(project, key);
    var u := PublicUrl(project, key);
    assert u[|UrlPrefix(project)| + |BucketSegment|..] == key;
  }

  /** In particular an uploaded file is found again under its upload key. */
  lemma UploadFoundAgain(project: string, fileName: string)
    requires PlainProject(project)
    ensures Contains(PublicUrl(project, UploadKey(fileName)), PublicMarker)
    ensures StoragePath(PublicUrl(project, UploadKey(fileName))) == UploadKey(fileName)
  {
    StoragePathRoundTrip(project, UploadKey(fileName));
  }
}
