// The settings the pipeline reads, at their default values (app/config.py).
module Config {

  /** `settings.storage_dir` */
  const StorageDir: string := "storage"

  /** `settings.max_upload_size_mb` */
  const MaxUploadSizeMb: nat := 50

  /** `settings.supported_extensions`, in declaration order. */
  const SupportedExtensions: seq<string> := [".pdf", ".png", ".jpg", ".jpeg", ".tiff", ".tif"]

  /** `settings.document_categories`, in declaration order. */
  const DocumentCategories: seq<string> := [
    "Deposition Transcript",
    "Contract",
    "Court Filing",
    "Correspondence",
    "Invoice",
    "Medical Record",
    "Police Report",
    "Expert Report",
    "Other"
  ]

  /** The universal fallback category. */
  const OtherCategory: string := "Other"
}
