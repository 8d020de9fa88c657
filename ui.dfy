/** What a page hands back to the browser shell: where to navigate and which
    notification to show. */
module Ui {
  datatype Route = Stay | SettingsPage | ReaderPage(key: string)

  datatype Toast = NoToast | Info(message: string) | SuccessToast(message: string) | ErrorToast(message: string)
}
