# Verification project for IM Bridge.
includes = ["**/*.dfy"]
