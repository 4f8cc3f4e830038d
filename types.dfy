/**
 * The records shared by the batch controller and the generation service
 * (types.ts). They carry no behaviour of their own.
 */
module Types {

  /** JavaScript's `T | null` / optional property. */
  datatype Option<+T> = None | Some(value: T)

  /** AppMode: one prompt for every image, or every image against every prompt. */
  datatype Mode = Vector | Matrix

  /** GenerationStatus of one output card. */
  datatype Status = Pending | Generating | Complete | Error

  /** An uploaded image; the browser `File` handle is not modelled, only its id and base64 payload. */
  datatype UploadedImage = UploadedImage(id: int, base64Data: string)

  /** A named prompt of matrix mode. */
  datatype Prompt = Prompt(id: int, title: string, text: string)

  /** One unit of work and what the user sees of it. */
  datatype OutputItem = OutputItem(
    id: int,
    sourceImageId: int,
    promptId: int,
    imageUrl: Option<string>,
    status: Status,
    error: Option<string>)
}
