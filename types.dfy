/** The records exchanged between the drive API, the explorer hook and the
    components (types/google-drive.ts, types/file-explorer.ts). Timestamps,
    which the source carries as date strings, are integers here. */
module Types {
  import opened Wrappers

  /** `inode_type: 'directory' | 'file'` */
  datatype InodeType = DirectoryNode | FileNode

  /** A drive entry as listed by the backend. `status` and
      `knowledge_base_id` are optional fields of the source record. */
  datatype Resource = Resource(
    resourceId: string,
    inodeType: InodeType,
    path: string,
    status: Option<string>,
    knowledgeBaseId: Option<string>,
    modifiedAt: int)

  /** The fields shared by `Folder` and `File`; only files carry a `mimeType`. */
  datatype Entry = Entry(
    id: string,
    name: string,
    path: string,
    knowledgeBaseId: Option<string>,
    modifiedTime: int,
    mimeType: Option<string>)

  type Folder = Entry
  type File = Entry

  /** `type: 'file' | 'folder'` */
  datatype Kind = FolderKind | FileKind

  /** `FileItem`: a folder or file entry tagged with its kind. */
  datatype FileItem = FileItem(kind: Kind, entry: Entry) {
    function Id(): string { entry.id }
  }

  /** Tags every entry with `kind`, as `entries.map(e => ({ ...e, type }))` does. */
  function Tag(entries: seq<Entry>, kind: Kind): (r: seq<FileItem>)
    ensures |r| == |entries|
    ensures forall i :: 0 <= i < |r| ==> r[i].kind == kind && r[i].entry == entries[i]
  {
    seq(|entries|, i requires 0 <= i < |entries| => FileItem(kind, entries[i]))
  }
}
