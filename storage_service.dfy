/** File storage in an S3-compatible bucket (StorageService.kt). The bucket
    itself is outside the program; it is modelled as the map from object key
    to content type that the service writes into and deletes from. The
    random part of an upload key is a parameter. */
module StorageService {
  import opened Wrappers
  import Text

  /** `uploadFile`'s extension: the text after the last '.' of the original
      file name, or "" when there is no dot or no file name. */
  function ExtensionOf(originalFilename: Option<string>): (ext: string)
    ensures '.' !in ext
    ensures originalFilename.None? ==> ext == ""
    ensures originalFilename.Some? && '.' !in originalFilename.value ==> ext == ""
    ensures originalFilename.Some? && '.' in originalFilename.value ==>
      exists i :: 0 <= i < |originalFilename.value| && originalFilename.value == originalFilename.value[..i] + "." + ext
  {
    match originalFilename
    case None => ""
    case Some(name) => Text.SubstringAfterLast(name, '.', "")
  }

  /** The key `"$folder/$id.$extension"` an upload is stored under. */
  function UploadKey(folder: string, id: string, extension: string): (key: string)
    ensures Text.StartsWith(key, folder + "/")
  {
    folder + "/" + id + "." + extension
  }

  /** The extension can be read back from the key, whatever the folder and
      the id, when it has no dot itself. */
  lemma UploadKeyKeepsExtension(folder: string, id: string, extension: string)
    requires '.' !in extension
    ensures Text.SubstringAfterLast(UploadKey(folder, id, extension), '.', "") == extension
  {
    var key := UploadKey(folder, id, extension);
    var i := |folder + "/" + id|;
    assert key == key[..i] + "." + extension;
    assert key[i] == '.';
    assert key[i + 1..] == extension;
    assert '.' !in key[i + 1..];
  }

  /** The storage service of one bucket at one endpoint, with the bucket's
      objects. */
  class Storage {
    const endpoint: string
    const bucket: string
    var objects: map<string, string>

    constructor (endpoint: string, bucket: string, objects: map<string, string>)
      ensures this.endpoint == endpoint && this.bucket == bucket && this.objects == objects
    {
      this.endpoint := endpoint;
      this.bucket := bucket;
      this.objects := objects;
    }

    /** The prefix every public URL of this bucket starts with. */
    function Prefix(): string {
      endpoint + "/" + bucket + "/"
    }

    /** `getPublicUrl(key)`: `"$endpoint/$bucket/$key"`. */
    function PublicUrl(key: string): (url: string)
      ensures Text.StartsWith(url, Prefix()) && url[|Prefix()|..] == key
    {
      Prefix() + key
    }

    /** `extractKeyFromUrl(url)`: what follows the prefix, or null when the
        URL does not start with it. */
    function ExtractKey(url: string): (key: Option<string>)
      ensures key.Some? <==> Text.StartsWith(url, Prefix())
      ensures key.Some? ==> url == Prefix() + key.value
    {
      if Text.StartsWith(url, Prefix()) then Some(url[|Prefix()|..]) else None
    }

    /** Every key comes back out of its public URL. */
    lemma ExtractPublicUrl(key: string)
      ensures ExtractKey(PublicUrl(key)) == Some(key)
    {
    }

    /** `uploadFile(file, folder)`: stores the file under
        `folder/<id>.<extension of its name>` and returns its public URL. */
    method UploadFile(originalFilename: Option<string>, contentType: string, folder: string, id: string) returns (url: string)
      modifies this
      ensures var key := UploadKey(folder, id, ExtensionOf(originalFilename));
        objects == old(objects)[key := contentType] && url == PublicUrl(key)
    {
      var extension := ExtensionOf(originalFilename);
      var key := UploadKey(folder, id, extension);
      objects := objects[key := contentType];
      url := PublicUrl(key);
    }

    /** `uploadFile(bytes, folder, extension, contentType)`: the same with
        the extension given. */
    method UploadBytes(folder: string, extension: string, contentType: string, id: string) returns (url: string)
      modifies this
      ensures objects == old(objects)[UploadKey(folder, id, extension) := contentType]
      ensures url == PublicUrl(UploadKey(folder, id, extension))
    {
      var key := UploadKey(folder, id, extension);
      objects := objects[key := contentType];
      url := PublicUrl(key);
    }

    /** `deleteFile(url)`: deletes the object the URL names, and does nothing
        for a URL outside this bucket. */
    method DeleteFile(url: string)
      modifies this
      ensures ExtractKey(url).None? ==> objects == old(objects)
      ensures ExtractKey(url).Some? ==> objects == old(objects) - {ExtractKey(url).value}
    {
      var key := ExtractKey(url);
      if key.None? {
        return;
      }
      objects := objects - {key.value};
    }
  }
}
