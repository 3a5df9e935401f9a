/** Which wizard buttons are rendered (src/components/NavigationButtons.tsx). */
module NavigationButtons {
  datatype Buttons = Buttons(previous: bool, next: bool, submit: bool)

  /** Previous from the second step on; then either Next or, from the last step on, Submit. */
  function Rendered(currentStep: int, totalSteps: int): (b: Buttons)
    ensures b.next != b.submit
    ensures b.previous <==> currentStep > 1
    ensures b.submit <==> currentStep >= totalSteps
  {
    Buttons(currentStep > 1, currentStep < totalSteps, !(currentStep < totalSteps))
  }
}
