/** The payload both services exchange and the name of the shared task queue. */
module Messages {

  import opened Wrappers

  /** Both services declare `type Message = { id?: number; text: string }`;
      the gateway forwards the caller's body as one and the worker stamps `id`. */
  datatype Message = Message(id: Option<int>, text: string)

  /** The shared task queue both services assert with amqplib's defaults. */
  const QueueName: string := "rpc-queue"

}
