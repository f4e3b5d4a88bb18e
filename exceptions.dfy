/** The Java exceptions the modelled code can throw, as values. */
module Exceptions {
  datatype Exception =
    | IndexOutOfBounds    // array index or Memory.read index outside its range
    | EmptyStack          // java.util.Stack.pop on an empty stack
    | NumberFormat        // Integer.parseInt of malformed text
    | NullPointer         // a call through a field that was never set
    | UnknownOpCode       // UnknownOPCodeException
    | UnknownEmulatorKey  // UnknownEmulatorKeyException
    | IllegalArgument     // Enum.valueOf of an unknown name
}
