/// The blob store behind the menu images, reduced to the set of blob names
/// in the one container the application uses. The storage client itself is
/// not part of this model.
module Services {
  import SD

  /// The absolute URI of blob `name` in `container` of the storage account
  /// at `accountUri`.
  function BlobUri(accountUri: string, container: string, name: string): string {
    accountUri + "/" + container + "/" + name
  }

  class BlobService {
    const accountUri: string
    /// Names of the blobs in the application's container.
    var blobs: set<string>

    constructor (accountUri: string, blobs: set<string>)
      ensures this.accountUri == accountUri && this.blobs == blobs
    {
      this.accountUri := accountUri;
      this.blobs := blobs;
    }

    /// Stores the uploaded file under `name` and answers the blob's URI.
    method UploadBlob(name: string) returns (uri: string)
      modifies this`blobs
      ensures blobs == old(blobs) + {name}
      ensures uri == BlobUri(accountUri, SD.StorageContainer, name)
    {
      blobs := blobs + {name};
      uri := BlobUri(accountUri, SD.StorageContainer, name);
    }

    /// Deletes blob `name` if it exists and says whether it did.
    method DeleteBlob(name: string) returns (deleted: bool)
      modifies this`blobs
      ensures deleted == (name in old(blobs))
      ensures blobs == old(blobs) - {name}
    {
      deleted := name in blobs;
      blobs := blobs - {name};
    }
  }
}
